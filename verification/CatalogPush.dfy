/** `pushCatalog`: which items go out how, and what each one is told. */
module CatalogPush {
  import opened Wrappers
  import opened JsText
  import opened Sequences
  import opened CatalogImages
  import opened CatalogPlan

  const WOO_BATCH_LIMIT: nat := 100

  /** One entry of the store's answer to a batch; an id may be missing. */
  datatype Reply = Reply(id: Option<string>, error: Option<Refusal>)

  datatype Refusal = Refusal(message: string, status: Option<int>)

  datatype Failure =
    | Unplanned(problem: PlanError)
    | Failed(message: string)
    | Omitted
    | Refused(message: string, retriable: bool)

  datatype Outcome = Outcome(externalId: string, failure: Option<Failure>)

  /** What goes to the store: a batch of items, by their positions in the input, or the requests of one item. */
  datatype Request = Batch(indices: seq<nat>) | Single(index: nat, requests: seq<ItemRequest>)

  /** What the store answers to the batch with the given number, and to a request of a single item. */
  datatype Store = Store(batch: nat -> Result<seq<Reply>, string>, single: (nat, ItemRequest) -> Option<string>)

  function Retriable(status: Option<int>): bool {
    status.Some? && (status.value >= 500 || status.value == 408 || status.value == 429)
  }

  /** `String(entry.id)` */
  function ReplyKey(reply: Reply): string {
    if reply.id.Some? then reply.id.value else "undefined"
  }

  /** The last entry of the answer about the id. */
  function LastReply(replies: seq<Reply>, id: string): Option<Reply> {
    if replies == [] then None
    else if ReplyKey(replies[|replies| - 1]) == id then Some(replies[|replies| - 1])
    else LastReply(replies[..|replies| - 1], id)
  }

  /** What one item of a batch is told. */
  function BatchVerdict(answer: Result<seq<Reply>, string>, externalId: string): Option<Failure> {
    match answer
    case Err(error) => Some(Failed(error))
    case Ok(replies) =>
      match LastReply(replies, BatchId(externalId))
      case None => Some(Omitted)
      case Some(reply) =>
        match reply.error
        case None => None
        case Some(refusal) => Some(Refused(refusal.message, Retriable(refusal.status)))
  }

  /** The first error among the answers to an item's requests. */
  function FirstError(requests: seq<ItemRequest>, index: nat, store: Store): Option<string> {
    if requests == [] then None
    else
      match store.single(index, requests[0])
      case Some(error) => Some(error)
      case None => FirstError(requests[1..], index, store)
  }

  /** The requests an item comes to make: up to the first that fails. */
  function Made(requests: seq<ItemRequest>, index: nat, store: Store): seq<ItemRequest> {
    if requests == [] then []
    else if store.single(index, requests[0]).Some? then [requests[0]]
    else [requests[0]] + Made(requests[1..], index, store)
  }

  /** An item's requests are made in order; the first error ends them, and only a last request fails. */
  lemma {:induction false} MadeUpToTheFirstError(requests: seq<ItemRequest>, index: nat, store: Store)
    ensures Made(requests, index, store) <= requests
    ensures var made := Made(requests, index, store);
            && (forall k :: 0 <= k < |made| - 1 ==> store.single(index, made[k]) == None)
            && (FirstError(requests, index, store) == None ==>
                  made == requests && forall k :: 0 <= k < |made| ==> store.single(index, made[k]) == None)
            && (FirstError(requests, index, store).Some? ==>
                  made != [] && store.single(index, made[|made| - 1]) == FirstError(requests, index, store))
  {
    if requests != [] && store.single(index, requests[0]) == None {
      var rest := Made(requests[1..], index, store);
      MadeUpToTheFirstError(requests[1..], index, store);
      assert forall k :: 0 < k < |rest| + 1 ==> ([requests[0]] + rest)[k] == rest[k - 1];
    }
  }

  /** How an item goes to the store. */
  datatype Way =
    | Rejected(problem: PlanError)
    | Alone(requests: seq<ItemRequest>)
    | InBatch(requests: seq<ItemRequest>)

  /** What item `i` asks for when it goes alone. */
  function Asks(ways: seq<Way>, i: nat): seq<ItemRequest> {
    if i < |ways| && !ways[i].Rejected? then ways[i].requests else []
  }

  ghost function WayOf(item: Item, native: NativeFields): Way {
    match Problem(item, native)
    case Some(problem) => Rejected(problem)
    case None =>
      if Simple(item, native) then InBatch(RequestsFor(item, native)) else Alone(RequestsFor(item, native))
  }

  ghost function Ways(items: seq<Item>, native: NativeFields): (r: seq<Way>)
    ensures |r| == |items| && forall i :: 0 <= i < |items| ==> r[i] == WayOf(items[i], native)
  {
    seq(|items|, i requires 0 <= i < |items| => WayOf(items[i], native))
  }

  /** The positions of the planned items. */
  function PlannedIndices(ways: seq<Way>): seq<nat> {
    if ways == [] then []
    else
      var n := |ways| - 1;
      PlannedIndices(ways[..n]) + if ways[n].Rejected? then [] else [n]
  }

  /** The positions of the items that may go into a batch. */
  function BatchIndices(ways: seq<Way>): seq<nat> {
    if ways == [] then []
    else
      var n := |ways| - 1;
      BatchIndices(ways[..n]) + if ways[n].InBatch? then [n] else []
  }

  predicate UsesBatches(ways: seq<Way>) { |BatchIndices(ways)| > 1 }

  /** What an item of a batch is told. */
  function RankVerdict(ways: seq<Way>, i: nat, externalId: string, store: Store): Option<Failure>
    requires i < |ways|
  {
    BatchVerdict(store.batch(|BatchIndices(ways[..i])| / WOO_BATCH_LIMIT), externalId)
  }

  /** What item `i` is told, whatever the order of work: the plan's error; in a dry run nothing more; the verdict of its
      batch, found by its rank among the batched items; or the first error among the answers to its own requests. */
  function Verdict(ways: seq<Way>, i: nat, externalId: string, dryRun: bool, store: Store): Option<Failure>
    requires i < |ways|
  {
    if ways[i].Rejected? then Some(Unplanned(ways[i].problem))
    else if dryRun then None
    else if UsesBatches(ways) && ways[i].InBatch? then
      RankVerdict(ways, i, externalId, store)
    else Told(FirstError(Asks(ways, i), i, store))
  }

  function Told(answer: Option<string>): Option<Failure> {
    match answer
    case None => None
    case Some(error) => Some(Failed(error))
  }

  lemma {:induction false} IndicesAre(ways: seq<Way>)
    ensures forall i :: i in PlannedIndices(ways) <==> 0 <= i < |ways| && !ways[i].Rejected?
    ensures forall i :: i in BatchIndices(ways) <==> 0 <= i < |ways| && ways[i].InBatch?
  {
    if ways != [] {
      IndicesAre(ways[..|ways| - 1]);
    }
  }

  ghost predicate Ascending(s: seq<nat>) {
    forall j, k :: 0 <= j < k < |s| ==> s[j] < s[k]
  }

  lemma AscendingAppend(s: seq<nat>, n: nat)
    requires Ascending(s) && forall i :: i in s ==> i < n
    ensures Ascending(s + [n])
  {
    forall j, k | 0 <= j < k < |s + [n]| ensures (s + [n])[j] < (s + [n])[k] {
      assert s[j] in s;
    }
  }

  lemma {:induction false} IndicesAscend(ways: seq<Way>)
    ensures Ascending(PlannedIndices(ways)) && Ascending(BatchIndices(ways))
  {
    if ways != [] {
      var n := |ways| - 1;
      IndicesAscend(ways[..n]);
      IndicesAre(ways[..n]);
      AscendingAppend(PlannedIndices(ways[..n]), n);
      AscendingAppend(BatchIndices(ways[..n]), n);
    }
  }

  /** The rank of a batched item is its place in the list. */
  lemma {:induction false} RankOf(ways: seq<Way>, i: nat)
    requires i < |ways| && ways[i].InBatch?
    ensures |BatchIndices(ways[..i])| < |BatchIndices(ways)|
    ensures BatchIndices(ways)[|BatchIndices(ways[..i])|] == i
    decreases |ways|
  {
    var n := |ways| - 1;
    if i < n {
      RankOf(ways[..n], i);
      assert ways[..n][..i] == ways[..i];
    }
  }

  /** A planned item with its position. */
  datatype Ready = Ready(index: nat, plan: Plan)

  function Indices(ready: seq<Ready>): (r: seq<nat>)
    ensures |r| == |ready| && forall k :: 0 <= k < |r| ==> r[k] == ready[k].index
  {
    seq(|ready|, k requires 0 <= k < |ready| => ready[k].index)
  }

  /** `planned.filter(...)` */
  function OnlyBatchable(ready: seq<Ready>): seq<Ready> {
    if ready == [] then []
    else
      var last := ready[|ready| - 1];
      OnlyBatchable(ready[..|ready| - 1]) + if Batchable(last.plan) then [last] else []
  }

  method PlanItem(item: Item, native: NativeFields, ghost way: Way) returns (r: Result<Plan, PlanError>)
    requires way == WayOf(item, native)
    ensures r.Err? ==> way == Rejected(r.error)
    ensures r.Ok? ==> way == PlannedWay(r.value)
  {
    r := BuildCatalogPlan(item, native);
    if r.Ok? {
      BatchableIff(r.value, item, native);
      PlanRequestsAre(r.value, item, native);
    }
  }

  function PlannedWay(plan: Plan): Way {
    if Batchable(plan) then InBatch(RequestsOf(plan)) else Alone(RequestsOf(plan))
  }

  function PlanFailure(way: Way): Option<Failure> {
    if way.Rejected? then Some(Unplanned(way.problem)) else None
  }

  /** The planned items so far, and those of them that may go into a batch. */
  ghost predicate Sorted(planned: seq<Ready>, ways: seq<Way>) {
    && Indices(planned) == PlannedIndices(ways) && Indices(OnlyBatchable(planned)) == BatchIndices(ways)
    && Matches(planned, ways)
  }

  /** Every plan makes the requests its item asks for. */
  ghost predicate Matches(planned: seq<Ready>, ways: seq<Way>) {
    forall k :: 0 <= k < |planned| ==> RequestsOf(planned[k].plan) == Asks(ways, planned[k].index)
  }

  lemma IndicesGrow(planned: seq<Ready>, ready: Ready)
    ensures Indices(planned + [ready]) == Indices(planned) + [ready.index]
  {
  }

  lemma SortedPush(planned: seq<Ready>, ways: seq<Way>, way: Way, plan: Plan)
    requires Sorted(planned, ways)
    requires way == PlannedWay(plan)
    ensures Sorted(planned + [Ready(|ways|, plan)], ways + [way])
  {
    var ready := Ready(|ways|, plan);
    assert (planned + [ready])[..|planned|] == planned;
    assert (ways + [way])[..|ways|] == ways;
    IndicesGrow(planned, ready);
    IndicesGrow(OnlyBatchable(planned), ready);
    MatchesGrows(planned, ways, way);
  }

  lemma MatchesGrows(planned: seq<Ready>, ways: seq<Way>, way: Way)
    requires Indices(planned) == PlannedIndices(ways) && Matches(planned, ways)
    ensures Matches(planned, ways + [way])
  {
    IndicesAre(ways);
    forall k | 0 <= k < |planned| ensures Asks(ways + [way], planned[k].index) == Asks(ways, planned[k].index) {
      assert Indices(planned)[k] in PlannedIndices(ways);
    }
  }

  lemma SortedSkip(planned: seq<Ready>, ways: seq<Way>, way: Way)
    requires Sorted(planned, ways) && way.Rejected?
    ensures Sorted(planned, ways + [way])
  {
    assert (ways + [way])[..|ways|] == ways;
    MatchesGrows(planned, ways, way);
  }

  /** The outcomes once the first `i` items have been planned. */
  ghost predicate PlannedUpTo(outcomes: seq<Outcome>, items: seq<Item>, ways: seq<Way>, i: nat) {
    && |outcomes| == |items| == |ways|
    && forall k :: 0 <= k < |items| ==>
         outcomes[k] == Outcome(items[k].externalId, if k < i then PlanFailure(ways[k]) else None)
  }

  lemma PlannedOneMore(outcomes: seq<Outcome>, items: seq<Item>, ways: seq<Way>, i: nat)
    requires PlannedUpTo(outcomes, items, ways, i) && i < |items|
    ensures ways[i].Rejected? ==>
              PlannedUpTo(outcomes[i := Outcome(items[i].externalId, Some(Unplanned(ways[i].problem)))], items, ways,
                          i + 1)
    ensures !ways[i].Rejected? ==> PlannedUpTo(outcomes, items, ways, i + 1)
    ensures ways[..i + 1] == ways[..i] + [ways[i]]
  {
  }

  /** Plans every item; an item without a plan is told why, the others start out as fine. */
  method PlanItems(items: seq<Item>, native: NativeFields) returns (outcomes: seq<Outcome>, planned: seq<Ready>)
    ensures |outcomes| == |items|
    ensures forall i :: 0 <= i < |items| ==>
              outcomes[i] == Outcome(items[i].externalId, PlanFailure(WayOf(items[i], native)))
    ensures Sorted(planned, Ways(items, native))
  {
    outcomes := seq(|items|, i requires 0 <= i < |items| => Outcome(items[i].externalId, None));
    ghost var ways := Ways(items, native);
    outcomes, planned := PlanAll(items, native, outcomes, ways);
  }

  method PlanAll(items: seq<Item>, native: NativeFields, outcomes0: seq<Outcome>, ghost ways: seq<Way>)
    returns (outcomes: seq<Outcome>, planned: seq<Ready>)
    requires |ways| == |items| && forall i :: 0 <= i < |items| ==> ways[i] == WayOf(items[i], native)
    requires PlannedUpTo(outcomes0, items, ways, 0)
    ensures PlannedUpTo(outcomes, items, ways, |items|) && Sorted(planned, ways)
  {
    outcomes, planned := outcomes0, [];
    var i := 0;
    while i < |items|
      invariant 0 <= i <= |items|
      invariant PlannedUpTo(outcomes, items, ways, i) && Sorted(planned, ways[..i])
    {
      PlannedOneMore(outcomes, items, ways, i);
      var plan := PlanItem(items[i], native, ways[i]);
      if plan.Err? {
        SortedSkip(planned, ways[..i], ways[i]);
        outcomes := outcomes[i := Outcome(items[i].externalId, Some(Unplanned(plan.error)))];
      } else {
        SortedPush(planned, ways[..i], ways[i], plan.value);
        planned := planned + [Ready(i, plan.value)];
      }
      i := i + 1;
    }
    assert ways[..i] == ways;
  }

  /** Tells each item of a chunk its verdict. */
  method PushCatalogBatch(items: seq<Item>, chunk: seq<Ready>, answer: Result<seq<Reply>, string>,
                          outcomes0: seq<Outcome>)
    returns (outcomes: seq<Outcome>)
    requires |outcomes0| == |items| && Ascending(Indices(chunk))
    requires forall k :: 0 <= k < |chunk| ==> chunk[k].index < |items|
    requires forall k :: 0 <= k < |chunk| ==>
               outcomes0[chunk[k].index] == Outcome(items[chunk[k].index].externalId, None)
    ensures |outcomes| == |items|
    ensures forall i :: 0 <= i < |items| ==>
              outcomes[i] == if i in Indices(chunk)
                             then Outcome(items[i].externalId, BatchVerdict(answer, items[i].externalId))
                             else outcomes0[i]
  {
    outcomes := outcomes0;
    var responseById: map<string, Reply> := map[];
    if answer.Ok? {
      responseById := RepliesById(answer.value);
    }
    var k := 0;
    while k < |chunk|
      invariant 0 <= k <= |chunk|
      invariant |outcomes| == |items|
      invariant forall i :: 0 <= i < |items| ==>
                  outcomes[i] == if i in Indices(chunk[..k])
                                 then Outcome(items[i].externalId, BatchVerdict(answer, items[i].externalId))
                                 else outcomes0[i]
    {
      var index := chunk[k].index;
      var externalId := items[index].externalId;
      assert Indices(chunk[..k + 1]) == Indices(chunk[..k]) + [index];
      NotEarlier(chunk, k);
      if answer.Err? {
        outcomes := outcomes[index := Outcome(externalId, Some(Failed(answer.error)))];
      } else if BatchId(externalId) !in responseById {
        outcomes := outcomes[index := Outcome(externalId, Some(Omitted))];
      } else {
        var reply := responseById[BatchId(externalId)];
        if reply.error.Some? {
          var refusal := reply.error.value;
          outcomes := outcomes[index := Outcome(externalId, Some(Refused(refusal.message, Retriable(refusal.status))))];
        }
      }
      k := k + 1;
    }
    assert chunk[..k] == chunk;
  }

  lemma NotEarlier(chunk: seq<Ready>, k: nat)
    requires Ascending(Indices(chunk)) && k < |chunk|
    ensures chunk[k].index !in Indices(chunk[..k])
    ensures forall j :: 0 <= j < k ==> chunk[j].index != chunk[k].index
  {
    var indices := Indices(chunk);
    forall j | 0 <= j < k ensures chunk[j].index != chunk[k].index {
      assert indices[j] < indices[k];
    }
  }

  /** `new Map(...)`: of several entries about one id the last one counts. */
  method RepliesById(replies: seq<Reply>) returns (byId: map<string, Reply>)
    ensures forall id: string :: LastReply(replies, id) == if id in byId then Some(byId[id]) else None
  {
    byId := map[];
    var i := 0;
    while i < |replies|
      invariant 0 <= i <= |replies|
      invariant forall id: string :: LastReply(replies[..i], id) == if id in byId then Some(byId[id]) else None
    {
      assert replies[..i + 1][..i] == replies[..i];
      byId := byId[ReplyKey(replies[i]) := replies[i]];
      i := i + 1;
    }
    assert replies[..i] == replies;
  }

  /** The batches: runs of at most a hundred items. */
  function Chunks(indices: seq<nat>): seq<Request>
    decreases |indices|
  {
    if indices == [] then []
    else if |indices| <= WOO_BATCH_LIMIT then [Batch(indices)]
    else [Batch(indices[..WOO_BATCH_LIMIT])] + Chunks(indices[WOO_BATCH_LIMIT..])
  }

  function LoneRequest(ways: seq<Way>, i: nat, store: Store): Request {
    Single(i, Made(Asks(ways, i), i, store))
  }

  function Singles(indices: seq<nat>, ways: seq<Way>, store: Store): seq<Request> {
    if indices == [] then []
    else Singles(indices[..|indices| - 1], ways, store) + [LoneRequest(ways, indices[|indices| - 1], store)]
  }

  /** The planned items that no batch takes. */
  function LoneIndices(ways: seq<Way>, batching: bool): seq<nat> {
    if ways == [] then []
    else
      var n := |ways| - 1;
      LoneIndices(ways[..n], batching)
      + if ways[n].Rejected? || (batching && ways[n].InBatch?) then [] else [n]
  }

  /** Everything that goes to the store, in order. */
  function Requests(ways: seq<Way>, store: Store): seq<Request> {
    (if UsesBatches(ways) then Chunks(BatchIndices(ways)) else [])
    + Singles(LoneIndices(ways, UsesBatches(ways)), ways, store)
  }

  /** The outcomes once the first `done` items of the batch list have been told. */
  ghost predicate ToldUpTo(outcomes: seq<Outcome>, outcomes0: seq<Outcome>, items: seq<Item>, ways: seq<Way>,
                           store: Store, done: nat)
    requires |ways| == |items| && done <= |BatchIndices(ways)|
  {
    && |outcomes| == |outcomes0| == |items|
    && forall i :: 0 <= i < |items| ==>
         outcomes[i] == if i in BatchIndices(ways)[..done]
                        then Outcome(items[i].externalId, RankVerdict(ways, i, items[i].externalId, store))
                        else outcomes0[i]
  }

  /** The items of the chunk at `offset` are told the answer to the chunk's own number. */
  lemma ToldOneMore(outcomes: seq<Outcome>, before: seq<Outcome>, outcomes0: seq<Outcome>, items: seq<Item>,
                    ways: seq<Way>, store: Store, offset: nat, end: nat)
    requires |ways| == |items| && offset < end <= |BatchIndices(ways)|
    requires offset % WOO_BATCH_LIMIT == 0 && end <= offset + WOO_BATCH_LIMIT
    requires ToldUpTo(before, outcomes0, items, ways, store, offset)
    requires |outcomes| == |items|
    requires forall i :: 0 <= i < |items| ==>
               outcomes[i] == if i in BatchIndices(ways)[offset..end]
                              then Outcome(items[i].externalId,
                                           BatchVerdict(store.batch(offset / WOO_BATCH_LIMIT), items[i].externalId))
                              else before[i]
    ensures ToldUpTo(outcomes, outcomes0, items, ways, store, end)
  {
    var b := BatchIndices(ways);
    IndicesAscend(ways);
    IndicesAre(ways);
    assert b[..end] == b[..offset] + b[offset..end];
    forall i | 0 <= i < |items| && i in b[offset..end]
      ensures |BatchIndices(ways[..i])| / WOO_BATCH_LIMIT == offset / WOO_BATCH_LIMIT
    {
      var r :| offset <= r < end && b[r] == i;
      assert b[r] in b;
      RankOf(ways, i);
      assert |BatchIndices(ways[..i])| == r;
    }
  }

  method SendBatches(items: seq<Item>, batchable: seq<Ready>, store: Store, outcomes0: seq<Outcome>,
                     ghost ways: seq<Way>)
    returns (outcomes: seq<Outcome>, sent: seq<Request>)
    requires |ways| == |items| == |outcomes0| && Indices(batchable) == BatchIndices(ways)
    requires forall i :: 0 <= i < |items| && ways[i].InBatch? ==> outcomes0[i] == Outcome(items[i].externalId, None)
    ensures ToldUpTo(outcomes, outcomes0, items, ways, store, |BatchIndices(ways)|)
    ensures sent == Chunks(BatchIndices(ways))
  {
    outcomes, sent := outcomes0, [];
    ghost var b := BatchIndices(ways);
    IndicesAre(ways);
    IndicesAscend(ways);
    var offset := 0;
    while offset < |batchable|
      invariant 0 <= offset && offset % WOO_BATCH_LIMIT == 0
      invariant ToldUpTo(outcomes, outcomes0, items, ways, store, if offset < |b| then offset else |b|)
      invariant sent + ChunksFrom(b, offset) == Chunks(b)
    {
      var end := if offset + WOO_BATCH_LIMIT < |batchable| then offset + WOO_BATCH_LIMIT else |batchable|;
      var chunk := batchable[offset..end];
      assert Indices(chunk) == b[offset..end];
      outcomes := SendChunk(items, chunk, store, outcomes, outcomes0, ways, offset, end);
      ChunkSent(b, offset, end, sent);
      sent := sent + [Batch(Indices(chunk))];
      offset := offset + WOO_BATCH_LIMIT;
    }
  }

  /** The batches from `offset` on. */
  function ChunksFrom(b: seq<nat>, offset: nat): seq<Request> {
    Chunks(if offset < |b| then b[offset..] else [])
  }

  /** One turn of the loop: the chunk's items are told the answer to it. */
  method SendChunk(items: seq<Item>, chunk: seq<Ready>, store: Store, before: seq<Outcome>,
                   ghost outcomes0: seq<Outcome>, ghost ways: seq<Way>, offset: nat, end: nat)
    returns (outcomes: seq<Outcome>)
    requires |ways| == |items| == |outcomes0| && offset < end <= |BatchIndices(ways)|
    requires offset % WOO_BATCH_LIMIT == 0 && end <= offset + WOO_BATCH_LIMIT
    requires Indices(chunk) == BatchIndices(ways)[offset..end]
    requires forall i :: 0 <= i < |items| && ways[i].InBatch? ==> outcomes0[i] == Outcome(items[i].externalId, None)
    requires ToldUpTo(before, outcomes0, items, ways, store, offset)
    ensures ToldUpTo(outcomes, outcomes0, items, ways, store, end)
  {
    ghost var b := BatchIndices(ways);
    ChunkIsReady(before, outcomes0, items, ways, store, b, offset, end);
    assert forall k :: 0 <= k < |chunk| ==> chunk[k].index == Indices(chunk)[k] == b[offset + k];
    outcomes := PushCatalogBatch(items, chunk, store.batch(offset / WOO_BATCH_LIMIT), before);
    ToldOneMore(outcomes, before, outcomes0, items, ways, store, offset, end);
  }

  lemma ChunkIsReady(outcomes: seq<Outcome>, outcomes0: seq<Outcome>, items: seq<Item>, ways: seq<Way>, store: Store,
                     b: seq<nat>, offset: nat, end: nat)
    requires |ways| == |items| == |outcomes0| && b == BatchIndices(ways) && offset < end <= |b|
    requires forall i :: 0 <= i < |items| && ways[i].InBatch? ==> outcomes0[i] == Outcome(items[i].externalId, None)
    requires ToldUpTo(outcomes, outcomes0, items, ways, store, offset)
    ensures Ascending(b[offset..end])
    ensures forall k :: offset <= k < end ==>
              b[k] < |items| && outcomes[b[k]] == Outcome(items[b[k]].externalId, None)
  {
    IndicesAre(ways);
    IndicesAscend(ways);
    forall k | offset <= k < end
      ensures b[k] < |items| && outcomes[b[k]] == Outcome(items[b[k]].externalId, None)
    {
      assert b[k] in b;
      assert b[k] !in b[..offset];
    }
  }

  lemma ChunksUnfold(s: seq<nat>, n: nat)
    requires s != [] && n == if |s| > WOO_BATCH_LIMIT then WOO_BATCH_LIMIT else |s|
    ensures Chunks(s) == [Batch(s[..n])] + Chunks(s[n..])
  {
    if n == |s| {
      assert s[..n] == s && s[n..] == [];
    }
  }

  lemma ChunkSent(b: seq<nat>, offset: nat, end: nat, sent: seq<Request>)
    requires offset < end <= |b| && end == if offset + WOO_BATCH_LIMIT < |b| then offset + WOO_BATCH_LIMIT else |b|
    requires sent + ChunksFrom(b, offset) == Chunks(b)
    ensures sent + [Batch(b[offset..end])] + ChunksFrom(b, offset + WOO_BATCH_LIMIT) == Chunks(b)
  {
    var s, n := b[offset..], end - offset;
    ChunksUnfold(s, n);
    assert s[..n] == b[offset..end];
    assert s[n..] == if offset + WOO_BATCH_LIMIT < |b| then b[offset + WOO_BATCH_LIMIT..] else [];
    Regroup(sent, [Batch(b[offset..end])], ChunksFrom(b, offset + WOO_BATCH_LIMIT));
  }

  function LoneOutcome(items: seq<Item>, ways: seq<Way>, i: nat, store: Store): Outcome
    requires i < |items|
  {
    Outcome(items[i].externalId, Told(FirstError(Asks(ways, i), i, store)))
  }

  /** The outcomes once the first items of the planned list have been seen to. */
  ghost predicate SinglesTold(outcomes: seq<Outcome>, outcomes0: seq<Outcome>, items: seq<Item>, seen: seq<nat>,
                              batched: set<nat>, ways: seq<Way>, store: Store)
  {
    && |outcomes| == |outcomes0| == |items|
    && forall i :: 0 <= i < |items| ==>
         outcomes[i] == if i !in seen || i in batched then outcomes0[i] else LoneOutcome(items, ways, i, store)
  }

  lemma SingleTold(outcomes: seq<Outcome>, outcomes0: seq<Outcome>, items: seq<Item>, seen: seq<nat>,
                   batched: set<nat>, ways: seq<Way>, store: Store, index: nat)
    requires SinglesTold(outcomes, outcomes0, items, seen, batched, ways, store)
    requires index < |items| && index !in seen
    requires index !in batched ==> outcomes0[index] == Outcome(items[index].externalId, None)
    ensures index in batched ==> SinglesTold(outcomes, outcomes0, items, seen + [index], batched, ways, store)
    ensures index !in batched ==>
              SinglesTold(outcomes[index := LoneOutcome(items, ways, index, store)], outcomes0, items, seen + [index],
                          batched, ways, store)
    ensures outcomes[index] == outcomes0[index]
  {
  }

  /** Sends the planned items that no batch took, one by one. */
  method SendSingles(items: seq<Item>, planned: seq<Ready>, batched: set<nat>, store: Store, outcomes0: seq<Outcome>,
                     ghost ways: seq<Way>)
    returns (outcomes: seq<Outcome>, sent: seq<Request>)
    requires |outcomes0| == |items| && Ascending(Indices(planned)) && Matches(planned, ways)
    requires forall k :: 0 <= k < |planned| ==> planned[k].index < |items|
    requires forall k :: 0 <= k < |planned| && planned[k].index !in batched ==>
               outcomes0[planned[k].index] == Outcome(items[planned[k].index].externalId, None)
    ensures SinglesTold(outcomes, outcomes0, items, Indices(planned), batched, ways, store)
    ensures sent == Singles(Outside(Indices(planned), batched), ways, store)
  {
    outcomes, sent := outcomes0, [];
    ghost var seen: seq<nat> := [];
    var k := 0;
    while k < |planned|
      invariant 0 <= k <= |planned| && seen == Indices(planned[..k])
      invariant SinglesTold(outcomes, outcomes0, items, seen, batched, ways, store)
      invariant sent == Singles(Outside(seen, batched), ways, store)
    {
      var index := planned[k].index;
      EntryIsNew(planned, k);
      SingleTold(outcomes, outcomes0, items, seen, batched, ways, store, index);
      OutsideGrows(seen, index, batched, ways, store);
      if index !in batched {
        var request;
        outcomes, request := SendSingle(items, planned[k], store, outcomes, ways);
        sent := sent + [request];
      }
      seen := seen + [index];
      k := k + 1;
    }
    assert planned[..k] == planned;
  }

  lemma EntryIsNew(planned: seq<Ready>, k: nat)
    requires Ascending(Indices(planned)) && k < |planned|
    ensures planned[k].index !in Indices(planned[..k])
    ensures Indices(planned[..k + 1]) == Indices(planned[..k]) + [planned[k].index]
  {
    NotEarlier(planned, k);
  }

  /** Sends one item by itself. */
  method SendSingle(items: seq<Item>, entry: Ready, store: Store, outcomes0: seq<Outcome>, ghost ways: seq<Way>)
    returns (outcomes: seq<Outcome>, request: Request)
    requires entry.index < |items| == |outcomes0| && RequestsOf(entry.plan) == Asks(ways, entry.index)
    requires outcomes0[entry.index] == Outcome(items[entry.index].externalId, None)
    ensures outcomes == outcomes0[entry.index := LoneOutcome(items, ways, entry.index, store)]
    ensures request == LoneRequest(ways, entry.index, store)
  {
    var error, made := PushCatalogItem(RequestsOf(entry.plan), entry.index, store);
    request := Single(entry.index, made);
    outcomes := Note(items, outcomes0, entry.index, error);
  }

  /** Makes an item's requests in order, up to the first error. */
  method PushCatalogItem(requests: seq<ItemRequest>, index: nat, store: Store)
    returns (error: Option<string>, made: seq<ItemRequest>)
    ensures error == FirstError(requests, index, store)
    ensures made == Made(requests, index, store)
  {
    made := [];
    var k := 0;
    while k < |requests|
      invariant 0 <= k <= |requests|
      invariant FirstError(requests, index, store) == FirstError(requests[k..], index, store)
      invariant made + Made(requests[k..], index, store) == Made(requests, index, store)
    {
      assert requests[k..][1..] == requests[k + 1..];
      made := made + [requests[k]];
      var answer := store.single(index, requests[k]);
      if answer.Some? {
        return answer, made;
      }
      k := k + 1;
    }
    return None, made;
  }

  /** Notes how one item fared. */
  method Note(items: seq<Item>, outcomes0: seq<Outcome>, index: nat, error: Option<string>)
    returns (outcomes: seq<Outcome>)
    requires index < |items| == |outcomes0| && outcomes0[index] == Outcome(items[index].externalId, None)
    ensures outcomes == outcomes0[index := Outcome(items[index].externalId, Told(error))]
  {
    outcomes := outcomes0;
    if error.Some? {
      outcomes := outcomes[index := Outcome(items[index].externalId, Some(Failed(error.value)))];
    }
  }

  lemma OutsideGrows(seen: seq<nat>, index: nat, out: set<nat>, ways: seq<Way>, store: Store)
    ensures var before := Outside(seen, out);
            && Outside(seen + [index], out) == (if index in out then before else before + [index])
            && Singles(before + [index], ways, store) == Singles(before, ways, store) + [LoneRequest(ways, index, store)]
  {
    var before := Outside(seen, out);
    assert (seen + [index])[..|seen|] == seen;
    assert (before + [index])[..|before|] == before;
  }

  /** The elements outside the set, in order. */
  function Outside(s: seq<nat>, out: set<nat>): seq<nat> {
    if s == [] then []
    else Outside(s[..|s| - 1], out) + if s[|s| - 1] in out then [] else [s[|s| - 1]]
  }

  /** Taking the batched items out of the planned ones leaves the lone ones. */
  lemma {:induction false} LoneIsFiltered(ways: seq<Way>, out: set<nat>, batching: bool, all: seq<Way>)
    requires |ways| <= |all| && ways == all[..|ways|]
    requires forall i :: i in out <==> batching && 0 <= i < |all| && all[i].InBatch?
    ensures LoneIndices(ways, batching) == Outside(PlannedIndices(ways), out)
  {
    if ways != [] {
      var n := |ways| - 1;
      var before := PlannedIndices(ways[..n]);
      LoneIsFiltered(ways[..n], out, batching, all);
      assert ways[n] == all[n];
      assert n in out <==> batching && ways[n].InBatch?;
      if ways[n].Rejected? {
        assert PlannedIndices(ways) == before;
      } else {
        assert PlannedIndices(ways) == before + [n];
        assert (before + [n])[..|before|] == before;
      }
    }
  }

  /** Pushes the catalogue: the outcomes in input order, and what went to the store. */
  method PushCatalog(provider: string, items: seq<Item>, dryRun: bool, store: Store)
    returns (r: Result<seq<Outcome>, string>, sent: seq<Request>)
    ensures r.Ok? <==> provider == "woocommerce"
    ensures r.Ok? ==> |r.value| == |items|
    ensures r.Ok? ==> forall i :: 0 <= i < |items| ==>
              r.value[i] == Outcome(items[i].externalId,
                                    Verdict(Ways(items, WOO_FIELDS), i, items[i].externalId, dryRun, store))
    ensures sent == if r.Ok? && !dryRun then Requests(Ways(items, WOO_FIELDS), store) else []
  {
    if provider != "woocommerce" {
      return Err("WOO_INVALID_STORE_PROVIDER"), [];
    }
    var outcomes;
    outcomes, sent := PushItems(items, dryRun, WOO_FIELDS, store);
    return Ok(outcomes), sent;
  }

  method PushItems(items: seq<Item>, dryRun: bool, native: NativeFields, store: Store)
    returns (outcomes: seq<Outcome>, sent: seq<Request>)
    ensures |outcomes| == |items|
    ensures forall i :: 0 <= i < |items| ==>
              outcomes[i] == Outcome(items[i].externalId,
                                     Verdict(Ways(items, native), i, items[i].externalId, dryRun, store))
    ensures sent == if dryRun then [] else Requests(Ways(items, native), store)
  {
    var planned;
    outcomes, planned := PlanItems(items, native);
    if dryRun {
      return outcomes, [];
    }
    outcomes, sent := SendAll(items, planned, store, outcomes, Ways(items, native));
  }

  /** The batches, when there is more than one item for them. */
  method SendInBatches(items: seq<Item>, batchable: seq<Ready>, store: Store, outcomes0: seq<Outcome>,
                       ghost ways: seq<Way>)
    returns (outcomes: seq<Outcome>, sent: seq<Request>, batched: set<nat>)
    requires |ways| == |items| == |outcomes0| && Indices(batchable) == BatchIndices(ways)
    requires forall i :: 0 <= i < |items| && ways[i].InBatch? ==> outcomes0[i] == Outcome(items[i].externalId, None)
    ensures forall i :: i in batched <==> UsesBatches(ways) && 0 <= i < |items| && ways[i].InBatch?
    ensures BatchesTold(outcomes, outcomes0, items, ways, batched, store)
    ensures sent == if UsesBatches(ways) then Chunks(BatchIndices(ways)) else []
  {
    outcomes, sent, batched := outcomes0, [], {};
    if |batchable| > 1 {
      outcomes, sent := SendBatches(items, batchable, store, outcomes, ways);
      batched := set entry <- batchable :: entry.index;
      BatchedIs(batchable, ways);
      IndicesAre(ways);
      assert BatchIndices(ways)[..|BatchIndices(ways)|] == BatchIndices(ways);
    }
  }

  method SendAll(items: seq<Item>, planned: seq<Ready>, store: Store, outcomes0: seq<Outcome>, ghost ways: seq<Way>)
    returns (outcomes: seq<Outcome>, sent: seq<Request>)
    requires |ways| == |items| == |outcomes0| && Sorted(planned, ways)
    requires forall i :: 0 <= i < |items| ==> outcomes0[i] == Outcome(items[i].externalId, PlanFailure(ways[i]))
    ensures |outcomes| == |items|
    ensures forall i :: 0 <= i < |items| ==>
              outcomes[i] == Outcome(items[i].externalId, Verdict(ways, i, items[i].externalId, false, store))
    ensures sent == Requests(ways, store)
  {
    var afterBatches, sentBatches, batched := SendInBatches(items, OnlyBatchable(planned), store, outcomes0, ways);
    PlannedAreReady(planned, ways);
    StillFresh(planned, items, ways, batched, outcomes0, afterBatches, store);
    LoneIsFiltered(ways, batched, UsesBatches(ways), ways);
    var sentSingles;
    outcomes, sentSingles := SendSingles(items, planned, batched, store, afterBatches, ways);
    AllAreTold(Indices(planned), items, ways, batched, outcomes0, afterBatches, outcomes, store);
    sent := sentBatches + sentSingles;
  }

  /** The outcomes after the batches. */
  ghost predicate BatchesTold(outcomes: seq<Outcome>, outcomes0: seq<Outcome>, items: seq<Item>, ways: seq<Way>,
                              batched: set<nat>, store: Store)
  {
    && |outcomes| == |outcomes0| == |items| == |ways|
    && forall i :: 0 <= i < |items| ==>
         outcomes[i] == if i in batched
                        then Outcome(items[i].externalId, RankVerdict(ways, i, items[i].externalId, store))
                        else outcomes0[i]
  }

  lemma StillFresh(planned: seq<Ready>, items: seq<Item>, ways: seq<Way>, batched: set<nat>, outcomes0: seq<Outcome>,
                   afterBatches: seq<Outcome>, store: Store)
    requires BatchesTold(afterBatches, outcomes0, items, ways, batched, store)
    requires forall i :: 0 <= i < |items| ==> outcomes0[i] == Outcome(items[i].externalId, PlanFailure(ways[i]))
    requires forall k :: 0 <= k < |planned| ==> planned[k].index < |ways| && !ways[planned[k].index].Rejected?
    ensures forall k :: 0 <= k < |planned| && planned[k].index !in batched ==>
              afterBatches[planned[k].index] == Outcome(items[planned[k].index].externalId, None)
  {
  }

  lemma AllAreTold(seen: seq<nat>, items: seq<Item>, ways: seq<Way>, batched: set<nat>, outcomes0: seq<Outcome>,
                   afterBatches: seq<Outcome>, outcomes: seq<Outcome>, store: Store)
    requires BatchesTold(afterBatches, outcomes0, items, ways, batched, store)
    requires SinglesTold(outcomes, afterBatches, items, seen, batched, ways, store)
    requires forall i :: 0 <= i < |items| ==> outcomes0[i] == Outcome(items[i].externalId, PlanFailure(ways[i]))
    requires forall i :: i in batched <==> UsesBatches(ways) && 0 <= i < |items| && ways[i].InBatch?
    requires forall i :: i in seen <==> 0 <= i < |ways| && !ways[i].Rejected?
    ensures forall i :: 0 <= i < |items| ==>
              outcomes[i] == Outcome(items[i].externalId, Verdict(ways, i, items[i].externalId, false, store))
  {
  }

  lemma PlannedAreReady(planned: seq<Ready>, ways: seq<Way>)
    requires Indices(planned) == PlannedIndices(ways)
    ensures Ascending(Indices(planned))
    ensures forall k :: 0 <= k < |planned| ==> planned[k].index < |ways| && !ways[planned[k].index].Rejected?
    ensures forall i :: i in Indices(planned) <==> 0 <= i < |ways| && !ways[i].Rejected?
  {
    IndicesAscend(ways);
    IndicesAre(ways);
    forall k | 0 <= k < |planned| ensures planned[k].index < |ways| && !ways[planned[k].index].Rejected? {
      assert PlannedIndices(ways)[k] in PlannedIndices(ways);
    }
  }

  lemma BatchedIs(batchable: seq<Ready>, ways: seq<Way>)
    requires Indices(batchable) == BatchIndices(ways)
    ensures (set entry <- batchable :: entry.index) == set i <- BatchIndices(ways)
  {
    forall i | i in BatchIndices(ways) ensures exists entry :: entry in batchable && entry.index == i {
      var k :| 0 <= k < |batchable| && Indices(batchable)[k] == i;
      assert batchable[k] in batchable;
    }
    forall entry | entry in batchable ensures entry.index in BatchIndices(ways) {
      var k :| 0 <= k < |batchable| && batchable[k] == entry;
      assert Indices(batchable)[k] == entry.index;
    }
  }

  function Count(s: seq<nat>, i: nat): nat {
    if s == [] then 0 else Count(s[..|s| - 1], i) + if s[|s| - 1] == i then 1 else 0
  }

  /** How often an item goes to the store. */
  function Times(requests: seq<Request>, i: nat): nat {
    if requests == [] then 0
    else
      (match requests[0]
       case Batch(indices) => Count(indices, i)
       case Single(index, _) => if index == i then 1 else 0)
      + Times(requests[1..], i)
  }

  lemma {:induction false} CountAppend(a: seq<nat>, b: seq<nat>, i: nat)
    ensures Count(a + b, i) == Count(a, i) + Count(b, i)
  {
    if b == [] {
      assert a + b == a;
    } else {
      var n := |b| - 1;
      assert (a + b)[..|a| + n] == a + b[..n];
      CountAppend(a, b[..n], i);
    }
  }

  lemma {:induction false} TimesAppend(a: seq<Request>, b: seq<Request>, i: nat)
    ensures Times(a + b, i) == Times(a, i) + Times(b, i)
  {
    if a == [] {
      assert a + b == b;
    } else {
      assert (a + b)[1..] == a[1..] + b;
      TimesAppend(a[1..], b, i);
    }
  }

  lemma {:induction false} ChunksCount(s: seq<nat>, i: nat)
    ensures Times(Chunks(s), i) == Count(s, i)
    decreases |s|
  {
    if |s| > WOO_BATCH_LIMIT {
      ChunksCount(s[WOO_BATCH_LIMIT..], i);
      CountAppend(s[..WOO_BATCH_LIMIT], s[WOO_BATCH_LIMIT..], i);
      assert s[..WOO_BATCH_LIMIT] + s[WOO_BATCH_LIMIT..] == s;
    }
  }

  lemma {:induction false} SinglesCount(s: seq<nat>, ways: seq<Way>, store: Store, i: nat)
    ensures Times(Singles(s, ways, store), i) == Count(s, i)
  {
    if s != [] {
      var n := |s| - 1;
      SinglesCount(s[..n], ways, store, i);
      TimesAppend(Singles(s[..n], ways, store), [LoneRequest(ways, s[n], store)], i);
    }
  }

  lemma CountLast(s: seq<nat>, n: nat, i: nat)
    ensures Count(s + [n], i) == Count(s, i) + if n == i then 1 else 0
  {
    assert (s + [n])[..|s|] == s;
  }

  lemma {:induction false} BatchCount(ways: seq<Way>, i: nat)
    ensures Count(BatchIndices(ways), i) == if i < |ways| && ways[i].InBatch? then 1 else 0
  {
    if ways != [] {
      var n := |ways| - 1;
      BatchCount(ways[..n], i);
      if ways[n].InBatch? {
        CountLast(BatchIndices(ways[..n]), n, i);
      } else {
        assert BatchIndices(ways) == BatchIndices(ways[..n]);
      }
    }
  }

  lemma {:induction false} LoneCount(ways: seq<Way>, i: nat, batching: bool)
    ensures Count(LoneIndices(ways, batching), i)
         == if i < |ways| && !ways[i].Rejected? && !(batching && ways[i].InBatch?) then 1 else 0
  {
    if ways != [] {
      var n := |ways| - 1;
      LoneCount(ways[..n], i, batching);
      if ways[n].Rejected? || (batching && ways[n].InBatch?) {
        assert LoneIndices(ways, batching) == LoneIndices(ways[..n], batching);
      } else {
        CountLast(LoneIndices(ways[..n], batching), n, i);
      }
    }
  }

  /** Every item with a plan goes out exactly once, in a batch or by itself; no other item goes at all. */
  lemma EachPlannedItemGoesOnce(ways: seq<Way>, store: Store, i: nat)
    ensures Times(Requests(ways, store), i) == if i < |ways| && !ways[i].Rejected? then 1 else 0
  {
    var batches := if UsesBatches(ways) then Chunks(BatchIndices(ways)) else [];
    var lone := LoneIndices(ways, UsesBatches(ways));
    TimesAppend(batches, Singles(lone, ways, store), i);
    ChunksCount(BatchIndices(ways), i);
    SinglesCount(lone, ways, store, i);
    BatchCount(ways, i);
    LoneCount(ways, i, UsesBatches(ways));
  }

  ghost predicate GoodBatch(request: Request, from: seq<nat>) {
    request.Batch? ==> 0 < |request.indices| <= WOO_BATCH_LIMIT && forall i :: i in request.indices ==> i in from
  }

  lemma {:induction false} ChunksAreGood(s: seq<nat>, from: seq<nat>)
    requires forall i :: i in s ==> i in from
    ensures forall request :: request in Chunks(s) ==> GoodBatch(request, from)
    decreases |s|
  {
    if |s| > WOO_BATCH_LIMIT {
      ChunksAreGood(s[WOO_BATCH_LIMIT..], from);
    }
  }

  lemma {:induction false} SinglesAreSingle(s: seq<nat>, ways: seq<Way>, store: Store)
    ensures forall request :: request in Singles(s, ways, store) ==> request.Single?
  {
    if s != [] {
      SinglesAreSingle(s[..|s| - 1], ways, store);
    }
  }

  /** A batch holds one to a hundred items, all of them simple. */
  lemma BatchesAreBounded(ways: seq<Way>, store: Store, request: Request)
    requires request in Requests(ways, store) && request.Batch?
    ensures 0 < |request.indices| <= 100
    ensures forall i :: i in request.indices ==> i < |ways| && ways[i].InBatch?
  {
    ChunksAreGood(BatchIndices(ways), BatchIndices(ways));
    SinglesAreSingle(LoneIndices(ways, UsesBatches(ways)), ways, store);
    IndicesAre(ways);
  }

  /** An item is reported fine exactly when it has a plan and, unless nothing was sent, the store took it. */
  lemma FineIff(ways: seq<Way>, i: nat, externalId: string, dryRun: bool, store: Store)
    requires i < |ways|
    ensures Verdict(ways, i, externalId, dryRun, store) == None
       <==> && !ways[i].Rejected?
            && (dryRun || if UsesBatches(ways) && ways[i].InBatch?
                          then Accepted(store.batch(|BatchIndices(ways[..i])| / WOO_BATCH_LIMIT), BatchId(externalId))
                          else forall request :: request in Asks(ways, i) ==> store.single(i, request) == None)
  {
    var answer := store.batch(|BatchIndices(ways[..i])| / WOO_BATCH_LIMIT);
    if answer.Ok? {
      LastReplyIs(answer.value, BatchId(externalId));
    }
    NoErrorIff(Asks(ways, i), i, store);
  }

  lemma {:induction false} NoErrorIff(requests: seq<ItemRequest>, index: nat, store: Store)
    ensures FirstError(requests, index, store) == None
       <==> forall request :: request in requests ==> store.single(index, request) == None
  {
    if requests != [] {
      NoErrorIff(requests[1..], index, store);
      assert requests == [requests[0]] + requests[1..];
    }
  }

  /** The last entry about the id is there and reports no error. */
  ghost predicate Accepted(answer: Result<seq<Reply>, string>, id: string) {
    answer.Ok?
    && exists k :: 0 <= k < |answer.value| && ReplyKey(answer.value[k]) == id && answer.value[k].error == None
         && forall j :: k < j < |answer.value| ==> ReplyKey(answer.value[j]) != id
  }

  lemma {:induction false} LastReplyIs(replies: seq<Reply>, id: string)
    ensures LastReply(replies, id) == None ==> forall k :: 0 <= k < |replies| ==> ReplyKey(replies[k]) != id
    ensures LastReply(replies, id).Some? ==>
              exists k :: 0 <= k < |replies| && ReplyKey(replies[k]) == id && replies[k] == LastReply(replies, id).value
                && forall j :: k < j < |replies| ==> ReplyKey(replies[j]) != id
  {
    if replies != [] {
      LastReplyIs(replies[..|replies| - 1], id);
    }
  }
}
