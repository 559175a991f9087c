/** `wooImages` and `mergeWooImages`: a product's images against those the store already has. */
module CatalogImages {
  import opened Wrappers
  import opened JsText

  /** An image as the platform has it. */
  datatype Image = Image(externalId: Option<string>, url: string, alt: Option<string>, sortOrder: Option<int>)

  /** An image the store has; `alt` and `position` may be missing or null. */
  datatype Stored = Stored(id: string, alt: Option<Option<string>>, position: Option<int>)

  /** An image as sent: one the store knows, or a new one by its address. */
  datatype Sent =
    | Known(id: string, alt: Option<Option<string>>, position: int)
    | Fresh(src: string, alt: Option<Option<string>>, position: int)

  /** `String(batchId(id))`: all digits make a number, which loses leading zeros. */
  function BatchId(id: string): string {
    if id != "" && AllDigits(id) then Decimal(NumberOf(id)) else id
  }

  predicate AllDigits(t: string) {
    forall i :: 0 <= i < |t| ==> IsDigit(t[i])
  }

  lemma BatchIdIsStable(id: string)
    ensures BatchId(BatchId(id)) == BatchId(id)
  {
    if id != "" && AllDigits(id) {
      DecimalRoundTrip(NumberOf(id));
    }
  }

  /** Ids of digits are one exactly when they are one number, and any other id is itself. */
  lemma BatchIdsAgreeIff(a: string, b: string)
    ensures BatchId(a) == BatchId(b)
       <==> a == b || (a != "" && b != "" && AllDigits(a) && AllDigits(b) && NumberOf(a) == NumberOf(b))
    ensures a == "" || !AllDigits(a) ==> BatchId(a) == a
  {
    if a != "" && AllDigits(a) {
      DecimalRoundTrip(NumberOf(a));
    }
    if b != "" && AllDigits(b) {
      DecimalRoundTrip(NumberOf(b));
    }
  }

  function WooImage(image: Image, index: nat): Sent {
    var id := if image.externalId.Some? then Trim(image.externalId.value) else "";
    var alt := if image.alt.Some? then Some(image.alt) else None;
    var position := if image.sortOrder.Some? then image.sortOrder.value else index;
    if id != "" then Known(BatchId(id), alt, position) else Fresh(image.url, alt, position)
  }

  function WooImages(images: seq<Image>): (r: seq<Sent>)
    ensures |r| == |images|
  {
    seq(|images|, i requires 0 <= i < |images| => WooImage(images[i], i))
  }

  /** The last incoming image with the id. */
  function LastWith(incoming: seq<Sent>, id: string): Option<Sent> {
    if incoming == [] then None
    else
      var last := incoming[|incoming| - 1];
      if last.Known? && last.id == id then Some(last) else LastWith(incoming[..|incoming| - 1], id)
  }

  /** The first incoming image with the id. */
  function FirstWith(incoming: seq<Sent>, id: string): Option<Sent> {
    if incoming == [] then None
    else
      var first := incoming[0];
      if first.Known? && first.id == id then Some(first) else FirstWith(incoming[1..], id)
  }

  function Ids(current: seq<Stored>): set<string> {
    set image <- current :: image.id
  }

  function KeptAt(image: Stored, index: nat): Sent {
    Known(image.id, image.alt, if image.position.Some? then image.position.value else index)
  }

  /** What stands at a store image's position: the last incoming image with its id, else the image itself. */
  function InPlace(current: seq<Stored>, incoming: seq<Sent>, index: nat): Sent
    requires index < |current|
  {
    var replacement := LastWith(incoming, current[index].id);
    if replacement.Some? then replacement.value else KeptAt(current[index], index)
  }

  /** The incoming images the store does not have: every new address, and every new id where it first occurs. */
  function Appended(incoming: seq<Sent>, known: set<string>): seq<Sent> {
    if incoming == [] then []
    else
      var first := incoming[0];
      if first.Fresh? then [first] + Appended(incoming[1..], known)
      else if first.id in known then Appended(incoming[1..], known)
      else [first] + Appended(incoming[1..], known + {first.id})
  }

  function Merged(current: seq<Stored>, incoming: seq<Sent>): seq<Sent> {
    seq(|current|, i requires 0 <= i < |current| => InPlace(current, incoming, i)) + Appended(incoming, Ids(current))
  }

  method MergeWooImages(current: seq<Stored>, incoming: seq<Sent>) returns (merged: seq<Sent>)
    ensures merged == Merged(current, incoming)
  {
    var incomingById: map<string, Sent> := map[];
    var i := 0;
    while i < |incoming|
      invariant 0 <= i <= |incoming|
      invariant forall id: string ::
                  LastWith(incoming[..i], id) == if id in incomingById then Some(incomingById[id]) else None
    {
      assert incoming[..i + 1][..i] == incoming[..i];
      if incoming[i].Known? {
        incomingById := incomingById[incoming[i].id := incoming[i]];
      }
      i := i + 1;
    }
    assert incoming[..i] == incoming;
    merged := [];
    i := 0;
    while i < |current|
      invariant 0 <= i <= |current|
      invariant |merged| == i && forall k :: 0 <= k < i ==> merged[k] == InPlace(current, incoming, k)
    {
      var id := current[i].id;
      merged := merged + [if id in incomingById then incomingById[id] else KeptAt(current[i], i)];
      i := i + 1;
    }
    ghost var inPlace := merged;
    assert merged == seq(|current|, k requires 0 <= k < |current| => InPlace(current, incoming, k));
    var currentIds := Ids(current);
    var appendedIds: set<string> := {};
    i := 0;
    assert incoming[0..] == incoming && currentIds + appendedIds == currentIds;
    while i < |incoming|
      invariant 0 <= i <= |incoming|
      invariant merged + Appended(incoming[i..], currentIds + appendedIds)
             == inPlace + Appended(incoming, currentIds)
    {
      assert incoming[i..][1..] == incoming[i + 1..];
      var image := incoming[i];
      if image.Known? && (image.id in currentIds || image.id in appendedIds) {
      } else {
        if image.Known? {
          assert currentIds + (appendedIds + {image.id}) == currentIds + appendedIds + {image.id};
          appendedIds := appendedIds + {image.id};
        }
        ghost var later := Appended(incoming[i + 1..], currentIds + appendedIds);
        assert merged + ([image] + later) == merged + [image] + later;
        merged := merged + [image];
      }
      i := i + 1;
    }
  }

  /** A new id stands for the image it first came in with. */
  lemma {:induction false} AppendedAt(incoming: seq<Sent>, known: set<string>, i: nat)
    requires i < |Appended(incoming, known)| && Appended(incoming, known)[i].Known?
    ensures var s := Appended(incoming, known)[i];
            s.id !in known && FirstWith(incoming, s.id) == Some(s)
  {
    var first, rest := incoming[0], incoming[1..];
    if first.Known? && first.id in known {
      AppendedAt(rest, known, i);
    } else if i > 0 {
      AppendedAt(rest, if first.Known? then known + {first.id} else known, i - 1);
    }
  }

  /** No id is appended twice. */
  lemma {:induction false} AppendedOnce(incoming: seq<Sent>, known: set<string>, i: nat, j: nat)
    requires i < j < |Appended(incoming, known)|
    requires Appended(incoming, known)[i].Known? && Appended(incoming, known)[j].Known?
    ensures Appended(incoming, known)[i].id != Appended(incoming, known)[j].id
  {
    var first, rest := incoming[0], incoming[1..];
    if first.Known? && first.id in known {
      AppendedOnce(rest, known, i, j);
    } else {
      var knownThen := if first.Known? then known + {first.id} else known;
      if i == 0 {
        AppendedAt(rest, knownThen, j - 1);
      } else {
        AppendedOnce(rest, knownThen, i - 1, j - 1);
      }
    }
  }

  /** Whatever new id comes in is there. */
  lemma {:induction false} AppendedHas(incoming: seq<Sent>, known: set<string>, id: string)
    requires id !in known && FirstWith(incoming, id).Some?
    ensures FirstWith(incoming, id).value in Appended(incoming, known)
  {
    var first, rest := incoming[0], incoming[1..];
    if first.Fresh? {
      AppendedHas(rest, known, id);
    } else if first.id in known {
      AppendedHas(rest, known, id);
    } else if first.id != id {
      AppendedHas(rest, known + {first.id}, id);
    }
  }

  function OnlyFresh(images: seq<Sent>): seq<Sent> {
    if images == [] then []
    else (if images[0].Fresh? then [images[0]] else []) + OnlyFresh(images[1..])
  }

  /** Images sent by address are all appended, in order. */
  lemma {:induction false} FreshAreKept(incoming: seq<Sent>, known: set<string>)
    ensures OnlyFresh(Appended(incoming, known)) == OnlyFresh(incoming)
  {
    if incoming != [] {
      var first, rest := incoming[0], incoming[1..];
      if first.Fresh? || first.id in known {
        FreshAreKept(rest, known);
      } else {
        FreshAreKept(rest, known + {first.id});
      }
    }
  }

  lemma {:induction false} LastImageFits(incoming: seq<Sent>, id: string)
    ensures LastWith(incoming, id).Some? ==>
              LastWith(incoming, id).value.Known? && LastWith(incoming, id).value.id == id
              && LastWith(incoming, id).value in incoming
    ensures LastWith(incoming, id).Some? <==> exists s :: s in incoming && s.Known? && s.id == id
  {
    if incoming != [] {
      LastImageFits(incoming[..|incoming| - 1], id);
      assert incoming == incoming[..|incoming| - 1] + [incoming[|incoming| - 1]];
    }
  }

  lemma {:induction false} FirstImageFits(incoming: seq<Sent>, id: string)
    ensures FirstWith(incoming, id).Some? ==>
              FirstWith(incoming, id).value.Known? && FirstWith(incoming, id).value.id == id
    ensures FirstWith(incoming, id).Some? <==> exists s :: s in incoming && s.Known? && s.id == id
  {
    if incoming != [] {
      FirstImageFits(incoming[1..], id);
    }
  }

  /** Every store image keeps its position; its content changes only when an incoming image has its id. */
  ghost predicate IsLast(incoming: seq<Sent>, id: string, k: nat)
    requires k < |incoming|
  {
    && incoming[k].Known? && incoming[k].id == id
    && forall j :: k < j < |incoming| && incoming[j].Known? ==> incoming[j].id != id
  }

  lemma {:induction false} LastImageAt(incoming: seq<Sent>, id: string)
    ensures forall k :: 0 <= k < |incoming| && IsLast(incoming, id, k) ==> LastWith(incoming, id) == Some(incoming[k])
  {
    if incoming != [] {
      var n := |incoming| - 1;
      LastImageAt(incoming[..n], id);
      forall k | 0 <= k < |incoming| && IsLast(incoming, id, k) ensures LastWith(incoming, id) == Some(incoming[k]) {
        if k < n {
          assert IsLast(incoming[..n], id, k);
        }
      }
    }
  }

  lemma StoreImagesKeepTheirPlace(current: seq<Stored>, incoming: seq<Sent>, index: nat)
    requires index < |current|
    ensures var merged := Merged(current, incoming);
            && index < |merged|
            && merged[index].Known? && merged[index].id == current[index].id
            && (merged[index] in incoming || merged[index] == KeptAt(current[index], index))
            && ((forall s :: s in incoming && s.Known? ==> s.id != current[index].id) ==>
                  merged[index] == KeptAt(current[index], index))
            && (forall k :: 0 <= k < |incoming| && IsLast(incoming, current[index].id, k) ==> merged[index] == incoming[k])
  {
    LastImageFits(incoming, current[index].id);
    LastImageAt(incoming, current[index].id);
  }

  ghost predicate AllKnown(images: seq<Sent>) {
    forall i :: 0 <= i < |images| ==> images[i].Known?
  }

  /** What the store has once it took the images; an image sent by address gets the id the store assigns. */
  function Taken(images: seq<Sent>, newIds: seq<string>): (r: seq<Stored>)
    requires |newIds| == |images|
    ensures |r| == |images|
    ensures forall i :: 0 <= i < |r| ==>
              r[i] == Stored(if images[i].Known? then images[i].id else newIds[i], images[i].alt,
                             Some(images[i].position))
  {
    seq(|images|, i requires 0 <= i < |images| =>
      Stored(if images[i].Known? then images[i].id else newIds[i], images[i].alt, Some(images[i].position)))
  }

  /** Sending these images to a store that has `current` changes nothing there. */
  ghost predicate ChangesNothing(current: seq<Stored>, merged: seq<Sent>) {
    |merged| == |current| && forall i :: 0 <= i < |merged| ==> merged[i] == KeptAt(current[i], i)
  }

  lemma {:induction false} FreshAreAppended(incoming: seq<Sent>, known: set<string>, i: nat)
    requires i < |incoming| && incoming[i].Fresh?
    ensures Appended(incoming, known) != []
  {
    if i > 0 {
      if incoming[0].Known? && incoming[0].id in known {
        FreshAreAppended(incoming[1..], known, i - 1);
      }
    }
  }

  /** An image sent by address is added every time, whatever the store has. */
  lemma MergingAddressesGrows(current: seq<Stored>, incoming: seq<Sent>)
    requires !AllKnown(incoming)
    ensures |Merged(current, incoming)| > |current|
  {
    var i :| 0 <= i < |incoming| && incoming[i].Fresh?;
    FreshAreAppended(incoming, Ids(current), i);
  }

  lemma {:induction false} AppendedIsKnown(incoming: seq<Sent>, known: set<string>)
    requires AllKnown(incoming)
    ensures AllKnown(Appended(incoming, known))
  {
    if incoming != [] {
      if incoming[0].id in known {
        AppendedIsKnown(incoming[1..], known);
      } else {
        AppendedIsKnown(incoming[1..], known + {incoming[0].id});
      }
    }
  }

  lemma MergedIsKnown(current: seq<Stored>, incoming: seq<Sent>)
    requires AllKnown(incoming)
    ensures AllKnown(Merged(current, incoming))
  {
    AppendedIsKnown(incoming, Ids(current));
    forall i | 0 <= i < |current| ensures Merged(current, incoming)[i].Known? {
      StoreImagesKeepTheirPlace(current, incoming, i);
    }
  }

  lemma {:induction false} NothingAppended(incoming: seq<Sent>, known: set<string>)
    requires AllKnown(incoming) && forall s :: s in incoming ==> s.id in known
    ensures Appended(incoming, known) == []
  {
    if incoming != [] {
      assert incoming[0] in incoming;
      NothingAppended(incoming[1..], known);
    }
  }

  /** No new id comes in twice with different content. */
  ghost predicate Agrees(current: seq<Stored>, incoming: seq<Sent>) {
    forall id: string :: id !in Ids(current) ==> FirstWith(incoming, id) == LastWith(incoming, id)
  }

  /** Every id of the merged images is one the store then has. */
  lemma IdsAfter(current: seq<Stored>, incoming: seq<Sent>, newIds: seq<string>)
    requires AllKnown(incoming) && |newIds| == |Merged(current, incoming)|
    ensures forall s :: s in incoming ==> s.id in Ids(Taken(Merged(current, incoming), newIds))
  {
    var merged := Merged(current, incoming);
    var after := Taken(merged, newIds);
    forall s | s in incoming ensures s.id in Ids(after) {
      if s.id in Ids(current) {
        var i :| 0 <= i < |current| && current[i].id == s.id;
        StoreImagesKeepTheirPlace(current, incoming, i);
        assert after[i].id == s.id;
      } else {
        FirstImageFits(incoming, s.id);
        AppendedHas(incoming, Ids(current), s.id);
        var f := FirstWith(incoming, s.id).value;
        assert f in merged;
        var i :| 0 <= i < |merged| && merged[i] == f;
        assert after[i].id == s.id;
      }
    }
  }

  /** At a store image's own place merging again changes nothing; at an appended one it puts the last image in. */
  lemma MergedAgainAt(current: seq<Stored>, incoming: seq<Sent>, newIds: seq<string>, i: nat)
    requires AllKnown(incoming) && |newIds| == |Merged(current, incoming)| && i < |newIds|
    ensures Merged(current, incoming)[i].Known?
    ensures KeptAt(Taken(Merged(current, incoming), newIds)[i], i) == Merged(current, incoming)[i]
    ensures i >= |current| ==> LastWith(incoming, Merged(current, incoming)[i].id).Some?
    ensures var merged := Merged(current, incoming);
            InPlace(Taken(merged, newIds), incoming, i) ==
              if i < |current| then merged[i] else LastWith(incoming, merged[i].id).value
  {
    var merged := Merged(current, incoming);
    MergedIsKnown(current, incoming);
    if i < |current| {
      StoreImagesKeepTheirPlace(current, incoming, i);
      LastImageFits(incoming, current[i].id);
    } else {
      var more := Appended(incoming, Ids(current));
      assert merged[i] == more[i - |current|];
      AppendedAt(incoming, Ids(current), i - |current|);
      FirstImageFits(incoming, merged[i].id);
      LastImageFits(incoming, merged[i].id);
    }
  }

  /** For images sent by id, pushing them again changes nothing exactly when no new id comes in twice with different
      content. */
  lemma KnownImagesAreIdempotentIff(current: seq<Stored>, incoming: seq<Sent>, newIds: seq<string>)
    requires AllKnown(incoming) && |newIds| == |Merged(current, incoming)|
    ensures var after := Taken(Merged(current, incoming), newIds);
            ChangesNothing(after, Merged(after, incoming)) <==> Agrees(current, incoming)
  {
    var merged := Merged(current, incoming);
    var after := Taken(merged, newIds);
    IdsAfter(current, incoming, newIds);
    NothingAppended(incoming, Ids(after));
    var again := Merged(after, incoming);
    assert |again| == |merged|;
    if Agrees(current, incoming) {
      forall i | 0 <= i < |merged| ensures again[i] == KeptAt(after[i], i) {
        MergedAgainAt(current, incoming, newIds, i);
        if i >= |current| {
          assert merged[i] == Appended(incoming, Ids(current))[i - |current|];
          AppendedAt(incoming, Ids(current), i - |current|);
        }
      }
    }
    if ChangesNothing(after, again) {
      forall id: string | id !in Ids(current) ensures FirstWith(incoming, id) == LastWith(incoming, id) {
        FirstImageFits(incoming, id);
        LastImageFits(incoming, id);
        if FirstWith(incoming, id).Some? {
          var more := Appended(incoming, Ids(current));
          AppendedHas(incoming, Ids(current), id);
          var j :| 0 <= j < |more| && more[j] == FirstWith(incoming, id).value;
          assert merged[|current| + j] == more[j];
          MergedAgainAt(current, incoming, newIds, |current| + j);
          assert again[|current| + j] == more[j];
        }
      }
    }
  }

  /** Pushing the same images again changes nothing, whatever ids the store assigns, exactly when none was sent by
      address and no new id comes in twice with different content. */
  lemma MergeIsIdempotentIff(current: seq<Stored>, incoming: seq<Sent>, newIds: seq<string>)
    requires |newIds| == |Merged(current, incoming)|
    ensures var after := Taken(Merged(current, incoming), newIds);
            ChangesNothing(after, Merged(after, incoming)) <==> AllKnown(incoming) && Agrees(current, incoming)
  {
    if AllKnown(incoming) {
      KnownImagesAreIdempotentIff(current, incoming, newIds);
    } else {
      MergingAddressesGrows(Taken(Merged(current, incoming), newIds), incoming);
    }
  }
}
