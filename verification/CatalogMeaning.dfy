/** What a plan holds, read off the item's fields one by one. */
module CatalogMeaning {
  import opened Wrappers
  import opened JsText
  import opened CatalogFields
  import opened CatalogImages
  import opened CatalogPlan

  /** The field has this remote key. */
  predicate Keyed(f: Field, key: string) {
    f.remoteKey.Some? && Trim(f.remoteKey.value) == key && key != ""
  }

  /** A remote key is needed, and missing or blank. */
  predicate Unkeyed(f: Field) {
    f.intent != Tag && (f.remoteKey.None? || Trim(f.remoteKey.value) == "")
  }

  /** Where a field's value is sent: under a key of its own, or as metadata. */
  datatype Place = Own | AsMeta

  /** Only display fields are sent as values: those with a key the store knows under it, the others as metadata under
      their key with the prefix. */
  predicate Goes(f: Field, native: set<string>, place: Place, key: string) {
    && f.intent == Display && f.remoteKey.Some? && Trim(f.remoteKey.value) != ""
    && var own := Trim(f.remoteKey.value);
       match place
       case Own => own in native && key == own
       case AsMeta => own !in native && key == if "porulle_" <= own then own else "porulle_" + own
  }

  function TargetAt(place: Place, key: string): Target {
    match place case Own => Native(key) case AsMeta => Metadatum(key)
  }

  /** Where every field goes, by its intent and its key. */
  lemma TargetOfIff(f: Field, native: set<string>)
    ensures TargetOf(f, native) == Keyless <==> Unkeyed(f)
    ensures TargetOf(f, native) == Tags <==> f.intent == Tag
    ensures TargetOf(f, native) == Filters <==> f.intent == Filterable && !Unkeyed(f)
    ensures forall place, key :: TargetOf(f, native) == TargetAt(place, key) <==> Goes(f, native, place, key)
  {
    if f.remoteKey.Some? {
      var i, j := TrimStripsTheEnds(f.remoteKey.value);
      BareStays(Trim(f.remoteKey.value));
    }
  }

  ghost predicate SomeGoes(fields: seq<Field>, native: set<string>, place: Place, key: string) {
    exists f :: f in fields && Goes(f, native, place, key)
  }

  lemma FeedsIff(fields: seq<Field>, native: set<string>, place: Place, key: string)
    ensures Feeds(fields, native, TargetAt(place, key)) <==> SomeGoes(fields, native, place, key)
  {
    forall f ensures TargetOf(f, native) == TargetAt(place, key) <==> Goes(f, native, place, key) {
      TargetOfIff(f, native);
    }
  }

  /** Field `i` decides what is sent under the key: the first in English that goes there, or the first at all when none
      is in English. */
  ghost predicate Decides(fields: seq<Field>, native: set<string>, place: Place, key: string, i: nat) {
    && i < |fields| && Goes(fields[i], native, place, key)
    && (forall j :: 0 <= j < i && Goes(fields[j], native, place, key) ==> fields[j].locale != Some("en"))
    && (fields[i].locale != Some("en") ==>
          forall j :: 0 <= j < |fields| && Goes(fields[j], native, place, key) ==>
            fields[j].locale != Some("en") && i <= j)
  }

  lemma {:induction false} FirstAt(fields: seq<Field>, native: set<string>, place: Place, key: string, english: bool)
    returns (i: nat)
    requires First(fields, native, TargetAt(place, key), english).Some?
    ensures i < |fields| && First(fields, native, TargetAt(place, key), english) == Some(fields[i])
    ensures Goes(fields[i], native, place, key) && (english ==> fields[i].locale == Some("en"))
    ensures forall j :: 0 <= j < i && Goes(fields[j], native, place, key) ==> english && fields[j].locale != Some("en")
  {
    TargetOfIff(fields[0], native);
    if TargetOf(fields[0], native) == TargetAt(place, key) && (english ==> English(fields[0])) {
      i := 0;
    } else {
      var k := FirstAt(fields[1..], native, place, key, english);
      i := k + 1;
      forall j | 0 <= j < i && Goes(fields[j], native, place, key) ensures english && fields[j].locale != Some("en") {
        if j > 0 {
          assert fields[1..][j - 1] == fields[j];
        }
      }
    }
  }

  lemma WinnerDecides(fields: seq<Field>, native: set<string>, place: Place, key: string) returns (i: nat)
    requires Winner(fields, native, TargetAt(place, key)).Some?
    ensures Decides(fields, native, place, key, i) && Winner(fields, native, TargetAt(place, key)) == Some(fields[i])
  {
    FirstFits(fields, native, TargetAt(place, key), true);
    i := FirstAt(fields, native, place, key, First(fields, native, TargetAt(place, key), true).Some?);
    if First(fields, native, TargetAt(place, key), true).None? {
      forall j | 0 <= j < |fields| && Goes(fields[j], native, place, key) ensures fields[j].locale != Some("en") {
        TargetOfIff(fields[j], native);
      }
    }
  }

  /** The value under the key is that of the deciding field. */
  ghost predicate Sent(value: Value, fields: seq<Field>, native: set<string>, place: Place, key: string) {
    exists i: nat :: Decides(fields, native, place, key, i) && value == fields[i].value
  }

  lemma FoundValue(value: Value, fields: seq<Field>, native: set<string>, place: Place, key: string)
    requires var winner := Winner(fields, native, TargetAt(place, key)); winner.Some? && winner.value.value == value
    ensures Sent(value, fields, native, place, key)
  {
    var i := WinnerDecides(fields, native, place, key);
  }

  /** A body and its metadata hold exactly what the display fields send: the body the keys the store knows, the metadata
      each other key once, under the prefix; each with the value of the field that decides. */
  ghost predicate BodyHolds(body: map<string, Value>, metaData: seq<Meta>, fields: seq<Field>, native: set<string>) {
    && (forall key: string :: key in body <==> SomeGoes(fields, native, Own, key))
    && (forall key: string :: key in body ==> key in native && Sent(body[key], fields, native, Own, key))
    && (forall key: string :: key in Keys(metaData) <==> SomeGoes(fields, native, AsMeta, key))
    && (forall i :: 0 <= i < |metaData| ==> Sent(metaData[i].value, fields, native, AsMeta, metaData[i].key))
    && (forall i, j :: 0 <= i < j < |metaData| ==> metaData[i].key != metaData[j].key)
  }

  lemma FoldedBodyHolds(body: map<string, Value>, metaData: seq<Meta>, fields: seq<Field>, native: set<string>)
    requires FieldsAre(body, metaData, fields, native)
    ensures BodyHolds(body, metaData, fields, native)
  {
    forall key: string
      ensures key in body <==> SomeGoes(fields, native, Own, key)
      ensures key in body ==> key in native && Sent(body[key], fields, native, Own, key)
    {
      WinnerExists(fields, native, Native(key));
      FeedsIff(fields, native, Own, key);
      if key in body {
        FoundValue(body[key], fields, native, Own, key);
      }
    }
    MetaOrderIsUnique(fields, native);
    forall key: string ensures key in Keys(metaData) <==> SomeGoes(fields, native, AsMeta, key) {
      FeedsIff(fields, native, AsMeta, key);
    }
    forall i | 0 <= i < |metaData| ensures Sent(metaData[i].value, fields, native, AsMeta, metaData[i].key) {
      FoundValue(metaData[i].value, fields, native, AsMeta, metaData[i].key);
    }
    forall i, j | 0 <= i < j < |metaData| ensures metaData[i].key != metaData[j].key {
      assert Keys(metaData)[i] != Keys(metaData)[j];
    }
  }

  // ---- Filters and tags --------------------------------------------------------------------------------

  /** The filterable fields, in order. */
  function FilterablesOf(fields: seq<Field>): seq<Field> {
    if fields == [] then []
    else if fields[0].intent == Filterable then [fields[0]] + FilterablesOf(fields[1..])
    else FilterablesOf(fields[1..])
  }

  lemma {:induction false} FilterablesAppend(fields: seq<Field>, f: Field)
    ensures FilterablesOf(fields + [f]) == FilterablesOf(fields) + if f.intent == Filterable then [f] else []
  {
    if fields == [] {
      assert [f][1..] == [];
    } else {
      assert (fields + [f])[1..] == fields[1..] + [f];
      FilterablesAppend(fields[1..], f);
    }
  }

  lemma {:induction false} OnlyFiltersAreFilterables(fields: seq<Field>, native: set<string>)
    requires forall f :: f in fields ==> !Unkeyed(f)
    ensures OnlyFilters(fields, native) == FilterablesOf(fields)
  {
    if fields != [] {
      var before, last := fields[..|fields| - 1], fields[|fields| - 1];
      OnlyFiltersAreFilterables(before, native);
      TargetOfIff(last, native);
      FilterablesAppend(before, last);
      assert before + [last] == fields;
    }
  }

  /** The entry names a tag: a text or an object's name, trimmed and not blank, or a number as it is spelt. */
  predicate Names(e: Entry, tag: string) {
    match e
    case Text(text) => Trim(text) == tag && tag != ""
    case Number(text) => text == tag
    case Named(name) => Trim(name) == tag && tag != ""
    case Other => false
  }

  ghost predicate TagNamed(f: Field, tag: string) {
    && f.intent == Tag
    && match f.value
       case Single(e) => Names(e, tag)
       case Many(entries) => exists e :: e in entries && Names(e, tag)
  }

  lemma {:induction false} EntriesName(entries: seq<Entry>, tag: string)
    ensures tag in EntriesTags(entries) <==> exists e :: e in entries && Names(e, tag)
  {
    if entries != [] {
      EntriesName(entries[1..], tag);
      assert tag in EntryTags(entries[0]) <==> Names(entries[0], tag);
    }
  }

  lemma FieldNames(f: Field, tag: string)
    requires f.intent == Tag
    ensures tag in TagValues(f.value) <==> TagNamed(f, tag)
  {
    match f.value
    case Single(e) => EntriesName([e], tag);
    case Many(entries) => EntriesName(entries, tag);
  }

  lemma {:induction false} AddAllAdds(tags: seq<string>, more: seq<string>)
    requires forall i, j :: 0 <= i < j < |tags| ==> tags[i] != tags[j]
    ensures var all := AddAll(tags, more);
            && (forall i, j :: 0 <= i < j < |all| ==> all[i] != all[j])
            && (forall tag :: tag in all <==> tag in tags || tag in more)
            && tags <= all
    decreases |more|
  {
    if more != [] {
      AddAllAdds(if more[0] in tags then tags else tags + [more[0]], more[1..]);
    }
  }

  /** Every tag that a tag field names is there once, and no other. */
  ghost predicate TagsAre(tags: seq<string>, fields: seq<Field>) {
    && (forall i, j :: 0 <= i < j < |tags| ==> tags[i] != tags[j])
    && forall tag :: tag in tags <==> SomeNames(fields, tag)
  }

  ghost predicate SomeNames(fields: seq<Field>, tag: string) {
    exists f :: f in fields && TagNamed(f, tag)
  }

  lemma {:induction false} AllTagsAre(fields: seq<Field>, native: set<string>)
    ensures TagsAre(AllTags(fields, native), fields)
  {
    if fields != [] {
      var before, last := fields[..|fields| - 1], fields[|fields| - 1];
      AllTagsAre(before, native);
      TargetOfIff(last, native);
      TagsOneMore(AllTags(before, native), before, last);
      assert before + [last] == fields;
    }
  }

  lemma NamedGrows(before: seq<Field>, last: Field, tag: string)
    ensures SomeNames(before + [last], tag) <==> SomeNames(before, tag) || (last.intent == Tag && tag in TagValues(last.value))
  {
    if SomeNames(before, tag) {
      var f :| f in before && TagNamed(f, tag);
      assert f in before + [last];
    }
    assert last in before + [last];
    if last.intent == Tag {
      FieldNames(last, tag);
    }
  }

  lemma TagsOneMore(tags: seq<string>, before: seq<Field>, last: Field)
    requires TagsAre(tags, before)
    ensures TagsAre(if last.intent == Tag then AddAll(tags, TagValues(last.value)) else tags, before + [last])
  {
    AddAllAdds(tags, TagValues(last.value));
    forall tag ensures SomeNames(before + [last], tag)
                  <==> SomeNames(before, tag) || (last.intent == Tag && tag in TagValues(last.value)) {
      NamedGrows(before, last, tag);
    }
  }

  // ---- Whole plans ---------------------------------------------------------------------------------------

  ghost predicate HasIntent(fields: seq<Field>, intent: Intent) {
    exists f :: f in fields && f.intent == intent
  }

  ghost predicate AllKeyed(fields: seq<Field>) {
    forall f :: f in fields ==> !Unkeyed(f)
  }

  /** Field `i` is the first that needs a remote key and has none. */
  ghost predicate FirstUnkeyed(fields: seq<Field>, i: nat) {
    i < |fields| && Unkeyed(fields[i]) && forall j :: 0 <= j < i ==> !Unkeyed(fields[j])
  }

  lemma {:induction false} FirstKeyless(fields: seq<Field>, native: set<string>)
    ensures var first := First(fields, native, Keyless, false);
            && (first.None? <==> AllKeyed(fields))
            && (first.Some? ==> exists i: nat :: FirstUnkeyed(fields, i) && first.value == fields[i])
  {
    if fields != [] {
      TargetOfIff(fields[0], native);
      FirstKeyless(fields[1..], native);
      if Unkeyed(fields[0]) {
        assert FirstUnkeyed(fields, 0);
      } else if First(fields[1..], native, Keyless, false).Some? {
        var i: nat :| FirstUnkeyed(fields[1..], i) && First(fields[1..], native, Keyless, false).value == fields[1..][i];
        forall j | 0 <= j < i + 1 ensures !Unkeyed(fields[j]) {
          if j > 0 { assert fields[1..][j - 1] == fields[j]; }
        }
        assert FirstUnkeyed(fields, i + 1);
      } else {
        assert forall f :: f in fields ==> f == fields[0] || f in fields[1..];
      }
    }
  }

  /** A variant's fields: keyed, and neither filters nor tags. */
  ghost predicate PlannableVariant(v: Variant) {
    AllKeyed(v.fields) && !HasIntent(v.fields, Filterable) && !HasIntent(v.fields, Tag)
  }

  lemma VariantProblemIs(v: Variant, native: set<string>)
    ensures var problem := VariantProblem(v, native);
            && (problem.None? <==> PlannableVariant(v))
            && (!AllKeyed(v.fields) ==>
                  exists i: nat :: FirstUnkeyed(v.fields, i) && problem == Some(RemoteKeyRequired(v.fields[i].path)))
            && (AllKeyed(v.fields) && HasIntent(v.fields, Filterable) ==> problem == Some(VariantFilterable(v.externalId)))
            && (AllKeyed(v.fields) && !HasIntent(v.fields, Filterable) && HasIntent(v.fields, Tag) ==>
                  problem == Some(VariantTag(v.externalId)))
  {
    FirstKeyless(v.fields, native);
    forall f | f in v.fields
      ensures TargetOf(f, native) == Tags <==> f.intent == Tag
      ensures TargetOf(f, native) == Filters <==> f.intent == Filterable && !Unkeyed(f)
    {
      TargetOfIff(f, native);
    }
  }

  /** The first variant that cannot be planned is the one that is reported. */
  lemma {:induction false} VariantsProblemIs(variants: seq<Variant>, native: set<string>)
    ensures var problem := VariantsProblem(variants, native);
            && (problem.None? <==> forall k :: 0 <= k < |variants| ==> PlannableVariant(variants[k]))
            && (problem.Some? ==>
                  exists k :: FirstUnplannable(variants, k) && problem == VariantProblem(variants[k], native))
  {
    if variants != [] {
      VariantProblemIs(variants[0], native);
      VariantsProblemIs(variants[1..], native);
      if VariantProblem(variants[0], native).Some? {
        assert FirstUnplannable(variants, 0);
      } else {
        assert forall k :: 1 <= k < |variants| ==> variants[k] == variants[1..][k - 1];
        if VariantsProblem(variants[1..], native).Some? {
          var k :| FirstUnplannable(variants[1..], k)
                   && VariantsProblem(variants[1..], native) == VariantProblem(variants[1..][k], native);
          assert FirstUnplannable(variants, k + 1);
        }
      }
    }
  }

  ghost predicate FirstUnplannable(variants: seq<Variant>, k: int) {
    0 <= k < |variants| && !PlannableVariant(variants[k]) && forall j :: 0 <= j < k ==> PlannableVariant(variants[j])
  }

  /** An item can be planned exactly when each of its fields other than a tag has a key, and each variant's fields are
      keyed and neither filters nor tags. The product's first field without a key is reported before any variant. */
  lemma ItemIsPlannedIff(item: Item, native: NativeFields)
    ensures Problem(item, native) == None
       <==> AllKeyed(item.fields) && forall k :: 0 <= k < |item.variants| ==> PlannableVariant(item.variants[k])
    ensures !AllKeyed(item.fields) ==>
              exists i: nat :: FirstUnkeyed(item.fields, i) && Problem(item, native) == Some(RemoteKeyRequired(item.fields[i].path))
  {
    FirstKeyless(item.fields, native.product);
    VariantsProblemIs(item.variants, native.variation);
  }

  /** Each image stands at its sort order, or else its place, and goes by its id in the store if it has one that is not
      blank, else by its address. */
  ghost predicate ImagesAre(sent: seq<Sent>, images: seq<Image>) {
    && |sent| == |images|
    && forall k :: 0 <= k < |sent| ==>
         && sent[k].position == (match images[k].sortOrder case Some(at) => at case None => k)
         && sent[k].alt == (match images[k].alt case Some(alt) => Some(Some(alt)) case None => None)
         && match images[k].externalId
            case Some(id) =>
              if Trim(id) == "" then sent[k].Fresh? && sent[k].src == images[k].url
              else sent[k].Known? && sent[k].id == BatchId(Trim(id))
            case None => sent[k].Fresh? && sent[k].src == images[k].url
  }

  lemma SentImagesAre(images: seq<Image>)
    ensures ImagesAre(WooImages(images), images)
  {
  }

  /** What a plan holds, field by field: the product's values, metadata, filters, tags and images, and each variant's
      values and metadata under its own id. */
  lemma PlanHoldsTheItem(plan: Plan, item: Item, native: NativeFields)
    requires Problem(item, native) == None && PlanIs(plan, item, native)
    ensures BodyHolds(plan.body, plan.metaData, item.fields, native.product)
    ensures plan.filterable == FilterablesOf(item.fields)
    ensures plan.tags.Some? <==> HasIntent(item.fields, Tag)
    ensures plan.tags.Some? ==> TagsAre(plan.tags.value, item.fields)
    ensures plan.images.Some? <==> item.images.Some?
    ensures plan.images.Some? ==> ImagesAre(plan.images.value, item.images.value)
    ensures |plan.variants| == |item.variants|
    ensures forall k :: 0 <= k < |plan.variants| ==>
              && plan.variants[k].externalId == item.variants[k].externalId
              && BodyHolds(plan.variants[k].body, plan.variants[k].metaData, item.variants[k].fields, native.variation)
  {
    ItemIsPlannedIff(item, native);
    FoldedBodyHolds(plan.body, plan.metaData, item.fields, native.product);
    OnlyFiltersAreFilterables(item.fields, native.product);
    TagsFed(item.fields, native.product);
    AllTagsAre(item.fields, native.product);
    if item.images.Some? {
      SentImagesAre(item.images.value);
    }
    forall k | 0 <= k < |plan.variants|
      ensures plan.variants[k].externalId == item.variants[k].externalId
      ensures BodyHolds(plan.variants[k].body, plan.variants[k].metaData, item.variants[k].fields, native.variation)
    {
      assert VariantIs(plan.variants[k], item.variants[k], native.variation);
      FoldedBodyHolds(plan.variants[k].body, plan.variants[k].metaData, item.variants[k].fields, native.variation);
    }
  }

  lemma TagsFed(fields: seq<Field>, native: set<string>)
    ensures Feeds(fields, native, Tags) <==> HasIntent(fields, Tag)
  {
    forall f ensures TargetOf(f, native) == Tags <==> f.intent == Tag {
      TargetOfIff(f, native);
    }
  }
}
