/** What the items of a batch are told, and which items a batch takes. */
module CatalogAnswers {
  import opened Wrappers
  import opened CatalogImages
  import opened CatalogPlan
  import opened CatalogPush

  /** Entry `k` is the one that counts for the id: the last about it. */
  ghost predicate Speaks(replies: seq<Reply>, id: string, k: nat) {
    && k < |replies| && ReplyKey(replies[k]) == id
    && forall j :: k < j < |replies| ==> ReplyKey(replies[j]) != id
  }

  /** The entry reports this refusal, worth another try exactly for a status of 500 or more, 408 or 429. */
  predicate Refuses(reply: Reply, message: string, retriable: bool) {
    && reply.error.Some? && reply.error.value.message == message
    && match reply.error.value.status
       case None => !retriable
       case Some(status) => retriable == (status >= 500 || status == 408 || status == 429)
  }

  /** What an item is told by an answer: the whole batch's error; that it was left out; that it went well; or its own
      refusal. */
  ghost predicate Says(answer: Result<seq<Reply>, string>, externalId: string, told: Option<Failure>) {
    match told
    case None => answer.Ok? && exists k: nat :: Speaks(answer.value, BatchId(externalId), k) && answer.value[k].error == None
    case Some(Failed(message)) => answer == Err(message)
    case Some(Omitted) =>
      answer.Ok? && forall k :: 0 <= k < |answer.value| ==> ReplyKey(answer.value[k]) != BatchId(externalId)
    case Some(Refused(message, retriable)) =>
      answer.Ok? && exists k: nat :: Speaks(answer.value, BatchId(externalId), k) && Refuses(answer.value[k], message, retriable)
    case Some(Unplanned(_)) => false
  }

  lemma OneSpeaks(replies: seq<Reply>, id: string, j: nat, k: nat)
    requires Speaks(replies, id, j) && Speaks(replies, id, k)
    ensures j == k
  {
  }

  lemma VerdictSays(answer: Result<seq<Reply>, string>, externalId: string)
    ensures Says(answer, externalId, BatchVerdict(answer, externalId))
  {
    if answer.Ok? {
      var id := BatchId(externalId);
      LastReplyIs(answer.value, id);
      if LastReply(answer.value, id).Some? {
        var k: nat :| k < |answer.value| && ReplyKey(answer.value[k]) == id
                      && answer.value[k] == LastReply(answer.value, id).value
                      && forall j :: k < j < |answer.value| ==> ReplyKey(answer.value[j]) != id;
        assert Speaks(answer.value, id, k);
      }
    }
  }

  /** An item of a batch is told exactly what the answer says of it, and that is one thing. */
  lemma BatchVerdictIff(answer: Result<seq<Reply>, string>, externalId: string, told: Option<Failure>)
    ensures BatchVerdict(answer, externalId) == told <==> Says(answer, externalId, told)
  {
    VerdictSays(answer, externalId);
    if Says(answer, externalId, told) && answer.Ok? {
      SaysOneThing(answer, externalId, told, BatchVerdict(answer, externalId));
    }
  }

  lemma SaysOneThing(answer: Result<seq<Reply>, string>, externalId: string, a: Option<Failure>, b: Option<Failure>)
    requires answer.Ok? && Says(answer, externalId, a) && Says(answer, externalId, b)
    ensures a == b
  {
    forall j: nat, k: nat | Speaks(answer.value, BatchId(externalId), j) && Speaks(answer.value, BatchId(externalId), k)
      ensures j == k
    {
      OneSpeaks(answer.value, BatchId(externalId), j, k);
    }
  }

  // ---- Which batch an item is in -----------------------------------------------------------------------

  lemma {:induction false} ChunkAt(s: seq<nat>, r: nat)
    requires r < |s|
    ensures r / 100 < |Chunks(s)| && Chunks(s)[r / 100].Batch? && s[r] in Chunks(s)[r / 100].indices
    ensures r / 100 + 1 < |Chunks(s)| ==> |Chunks(s)[r / 100].indices| == 100
    decreases |s|
  {
    if |s| > 100 {
      var rest := s[100..];
      if r >= 100 {
        ChunkAt(rest, r - 100);
        assert (r - 100) / 100 == r / 100 - 1;
        assert rest[r - 100] == s[r];
      } else {
        assert s[..100][r] == s[r];
      }
    }
  }

  /** With at least two items for batches, each is in the batch whose answer it is told, the batches are full up to the
      last, and they go out first. */
  lemma ToldByItsOwnBatch(ways: seq<Way>, store: Store, i: nat, j: nat)
    requires i < |ways| && j < |ways| && i != j && ways[i].InBatch? && ways[j].InBatch?
    ensures var (number, sent) := (|BatchIndices(ways[..i])| / 100, Requests(ways, store));
            && number < |sent| && sent[number].Batch? && i in sent[number].indices
            && (number + 1 < |sent| && sent[number + 1].Batch? ==> |sent[number].indices| == 100)
    ensures Verdict(ways, i, "", false, store) == BatchVerdict(store.batch(|BatchIndices(ways[..i])| / 100), "")
  {
    AreBatched(ways, i, j);
    SinglesAreSingle(LoneIndices(ways, true), ways, store);
    RankOf(ways, i);
    ChunkAt(BatchIndices(ways), |BatchIndices(ways[..i])|);
    var chunks, singles := Chunks(BatchIndices(ways)), Singles(LoneIndices(ways, true), ways, store);
    var next := |BatchIndices(ways[..i])| / 100 + 1;
    assert Requests(ways, store) == chunks + singles;
    if |chunks| <= next < |chunks + singles| {
      assert (chunks + singles)[next] == singles[next - |chunks|] && singles[next - |chunks|] in singles;
    }
  }

  lemma AreBatched(ways: seq<Way>, i: nat, j: nat)
    requires i < |ways| && j < |ways| && i != j && ways[i].InBatch? && ways[j].InBatch?
    ensures UsesBatches(ways)
  {
    RankOf(ways, i);
    RankOf(ways, j);
  }

  lemma BatchMeansBatches(ways: seq<Way>, store: Store, request: Request)
    requires request in Requests(ways, store) && request.Batch?
    ensures UsesBatches(ways)
  {
    SinglesAreSingle(LoneIndices(ways, UsesBatches(ways)), ways, store);
  }

  lemma AnotherIsBatched(ways: seq<Way>, i: nat)
    requires UsesBatches(ways)
    ensures exists j :: 0 <= j < |ways| && j != i && ways[j].InBatch?
  {
    IndicesAre(ways);
    IndicesAscend(ways);
    var b := BatchIndices(ways);
    var j := if b[0] == i then b[1] else b[0];
    assert j in b && j != i;
  }

  /** An item goes in a batch exactly when it is one of at least two that may. */
  lemma GoesInABatchIff(ways: seq<Way>, store: Store, i: nat)
    requires i < |ways|
    ensures (exists request :: request in Requests(ways, store) && request.Batch? && i in request.indices)
       <==> ways[i].InBatch? && exists j :: 0 <= j < |ways| && j != i && ways[j].InBatch?
  {
    if request :| request in Requests(ways, store) && request.Batch? && i in request.indices {
      BatchesAreBounded(ways, store, request);
      BatchMeansBatches(ways, store, request);
      AnotherIsBatched(ways, i);
    }
    if ways[i].InBatch? && exists j :: 0 <= j < |ways| && j != i && ways[j].InBatch? {
      var j :| 0 <= j < |ways| && j != i && ways[j].InBatch?;
      ToldByItsOwnBatch(ways, store, i, j);
      assert Requests(ways, store)[|BatchIndices(ways[..i])| / 100] in Requests(ways, store);
    }
  }

  // ---- What goes alone -------------------------------------------------------------------------------------

  lemma {:induction false} LoneAre(ways: seq<Way>, batching: bool)
    ensures forall i :: i in LoneIndices(ways, batching)
              <==> 0 <= i < |ways| && !ways[i].Rejected? && !(batching && ways[i].InBatch?)
  {
    if ways != [] {
      LoneAre(ways[..|ways| - 1], batching);
    }
  }

  lemma {:induction false} SinglesAre(s: seq<nat>, ways: seq<Way>, store: Store)
    ensures forall i, made :: Single(i, made) in Singles(s, ways, store) <==> i in s && made == Made(Asks(ways, i), i, store)
  {
    if s != [] {
      var n := |s| - 1;
      SinglesAre(s[..n], ways, store);
      assert s == s[..n] + [s[n]];
    }
  }

  /** An item goes alone exactly when it has a plan and no batch takes it; then it makes the requests it asks for, all of
      them or up to the first that fails. */
  lemma GoesAloneIff(ways: seq<Way>, store: Store, i: nat, made: seq<ItemRequest>)
    requires i < |ways|
    ensures Single(i, made) in Requests(ways, store)
       <==> && !ways[i].Rejected?
            && !(ways[i].InBatch? && exists j :: 0 <= j < |ways| && j != i && ways[j].InBatch?)
            && made == Made(ways[i].requests, i, store)
  {
    var batching := UsesBatches(ways);
    SinglesAre(LoneIndices(ways, batching), ways, store);
    LoneAre(ways, batching);
    NoChunkIsSingle(BatchIndices(ways), Single(i, made));
    if batching {
      AnotherIsBatched(ways, i);
    } else if j :| 0 <= j < |ways| && j != i && ways[j].InBatch? {
      if ways[i].InBatch? {
        AreBatched(ways, i, j);
      }
    }
  }

  lemma {:induction false} NoChunkIsSingle(s: seq<nat>, request: Request)
    requires request.Single?
    ensures request !in Chunks(s)
    decreases |s|
  {
    if |s| > 100 {
      NoChunkIsSingle(s[100..], request);
    }
  }

  lemma {:induction false} SinglesStand(s: seq<nat>, ways: seq<Way>, store: Store)
    ensures |Singles(s, ways, store)| == |s|
    ensures forall k :: 0 <= k < |s| ==> Singles(s, ways, store)[k].Single? && Singles(s, ways, store)[k].index == s[k]
  {
    if s != [] {
      SinglesStand(s[..|s| - 1], ways, store);
    }
  }

  lemma {:induction false} LoneAscend(ways: seq<Way>, batching: bool)
    ensures Ascending(LoneIndices(ways, batching))
  {
    if ways != [] {
      var n := |ways| - 1;
      LoneAscend(ways[..n], batching);
      LoneAre(ways[..n], batching);
      AscendingAppend(LoneIndices(ways[..n], batching), n);
    }
  }

  lemma {:induction false} ChunksAreBatches(s: seq<nat>)
    ensures forall request :: request in Chunks(s) ==> request.Batch?
    decreases |s|
  {
    if |s| > 100 {
      ChunksAreBatches(s[100..]);
    }
  }

  /** The items that go alone go after the batches, in input order. */
  lemma GoInInputOrder(ways: seq<Way>, store: Store, p: nat, q: nat)
    requires p < q < |Requests(ways, store)|
    ensures var sent := Requests(ways, store);
            sent[p].Single? ==> sent[q].Single? && sent[p].index < sent[q].index
  {
    var chunks := if UsesBatches(ways) then Chunks(BatchIndices(ways)) else [];
    var lone := LoneIndices(ways, UsesBatches(ways));
    assert Requests(ways, store) == chunks + Singles(lone, ways, store);
    ChunksAreBatches(BatchIndices(ways));
    SinglesStand(lone, ways, store);
    LoneAscend(ways, UsesBatches(ways));
    if p < |chunks| {
      assert chunks[p] in chunks;
    }
  }
}
