/** `buildCatalogPlan`: what one item asks the store to change. */
module CatalogPlan {
  import opened Wrappers
  import opened JsText
  import opened CatalogFields
  import opened CatalogImages

  datatype Variant = Variant(externalId: string, fields: seq<Field>)

  datatype Item = Item(externalId: string, fields: seq<Field>, images: Option<seq<Image>>, variants: seq<Variant>)

  datatype VariantPlan = VariantPlan(externalId: string, body: map<string, Value>, metaData: seq<Meta>)

  datatype Plan = Plan(
    body: map<string, Value>,
    metaData: seq<Meta>,
    tags: Option<seq<string>>,
    images: Option<seq<Sent>>,
    filterable: seq<Field>,
    variants: seq<VariantPlan>)

  datatype PlanError =
    | RemoteKeyRequired(path: string)
    | VariantFilterable(variant: string)
    | VariantTag(variant: string)

  /** The keys the store takes as fields of their own; all others become metadata. */
  datatype NativeFields = NativeFields(product: set<string>, variation: set<string>)

  const WOO_FIELDS := NativeFields({
    "name", "slug", "type", "status", "featured", "catalog_visibility", "description", "short_description", "sku",
    "regular_price", "sale_price", "date_on_sale_from", "date_on_sale_to", "virtual", "downloadable", "downloads",
    "download_limit", "download_expiry", "external_url", "button_text", "tax_status", "tax_class", "manage_stock",
    "stock_quantity", "backorders", "sold_individually", "weight", "dimensions", "shipping_class", "reviews_allowed",
    "upsell_ids", "cross_sell_ids", "parent_id", "purchase_note", "menu_order", "images" }, {
    "description", "sku", "regular_price", "sale_price", "date_on_sale_from", "date_on_sale_to", "status", "virtual",
    "downloadable", "downloads", "download_limit", "download_expiry", "tax_status", "tax_class", "manage_stock",
    "stock_quantity", "backorders", "weight", "dimensions", "shipping_class", "shipping_class_id", "image",
    "menu_order" })

  function KeyProblem(fields: seq<Field>, native: set<string>): Option<PlanError> {
    match First(fields, native, Keyless, false)
    case Some(f) => Some(RemoteKeyRequired(f.path))
    case None => None
  }

  /** Why a variant cannot be planned. */
  ghost function VariantProblem(v: Variant, native: set<string>): Option<PlanError> {
    if KeyProblem(v.fields, native).Some? then KeyProblem(v.fields, native)
    else if Feeds(v.fields, native, Filters) then Some(VariantFilterable(v.externalId))
    else if Feeds(v.fields, native, Tags) then Some(VariantTag(v.externalId))
    else None
  }

  ghost function VariantsProblem(variants: seq<Variant>, native: set<string>): Option<PlanError> {
    if variants == [] then None
    else if VariantProblem(variants[0], native).Some? then VariantProblem(variants[0], native)
    else VariantsProblem(variants[1..], native)
  }

  /** Why an item cannot be planned: its own fields first, then its variants in order. */
  ghost function Problem(item: Item, native: NativeFields): Option<PlanError> {
    if KeyProblem(item.fields, native.product).Some? then KeyProblem(item.fields, native.product)
    else VariantsProblem(item.variants, native.variation)
  }

  /** A body holds the winners' values and nothing else. */
  ghost predicate BodyIs(body: map<string, Value>, fields: seq<Field>, native: set<string>) {
    forall key: string :: key in body <==> Winner(fields, native, Native(key)).Some?
  }

  ghost predicate ValuesAre(body: map<string, Value>, fields: seq<Field>, native: set<string>) {
    forall key: string :: key in body ==>
      Winner(fields, native, Native(key)).Some? && body[key] == Winner(fields, native, Native(key)).value.value
  }

  ghost predicate MetaDataIs(metaData: seq<Meta>, fields: seq<Field>, native: set<string>) {
    && Keys(metaData) == MetaOrder(fields, native)
    && forall i :: 0 <= i < |metaData| ==>
         Winner(fields, native, Metadatum(metaData[i].key)).Some?
         && metaData[i].value == Winner(fields, native, Metadatum(metaData[i].key)).value.value
  }

  ghost predicate FieldsAre(body: map<string, Value>, metaData: seq<Meta>, fields: seq<Field>, native: set<string>) {
    BodyIs(body, fields, native) && ValuesAre(body, fields, native) && MetaDataIs(metaData, fields, native)
  }

  ghost predicate VariantIs(plan: VariantPlan, v: Variant, native: set<string>) {
    plan.externalId == v.externalId && FieldsAre(plan.body, plan.metaData, v.fields, native)
  }

  ghost predicate PlanIs(plan: Plan, item: Item, native: NativeFields) {
    && FieldsAre(plan.body, plan.metaData, item.fields, native.product)
    && plan.filterable == OnlyFilters(item.fields, native.product)
    && plan.tags == (if Feeds(item.fields, native.product, Tags) then Some(AllTags(item.fields, native.product)) else None)
    && plan.images == (if item.images.Some? then Some(WooImages(item.images.value)) else None)
    && |plan.variants| == |item.variants|
    && forall i :: 0 <= i < |plan.variants| ==> VariantIs(plan.variants[i], item.variants[i], native.variation)
  }

  /** Folds the fields of a product or a variant. */
  method FoldFields(fields: seq<Field>, native: set<string>)
    returns (fold: CatalogFold, r: Result<bool, string>)
    ensures r.Ok? <==> KeyProblem(fields, native) == None
    ensures r.Err? ==> KeyProblem(fields, native) == Some(RemoteKeyRequired(r.error))
    ensures r.Ok? ==>
              && FieldsAre(fold.body, fold.metaData, fields, native)
              && fold.filterable == OnlyFilters(fields, native)
              && fold.tags == AllTags(fields, native)
              && (r.value <==> Feeds(fields, native, Tags))
  {
    fold := new CatalogFold();
    r := fold.AppendCatalogFields(fields, native);
    FirstFits(fields, native, Keyless, false);
    if r.Ok? {
      FoldedFields(fold.body, fold.locales, fold.metaData, fold.metaLocales, fields, native);
    }
  }

  lemma FoldedFields(body: map<string, Value>, locales: Locales, metaData: seq<Meta>, metaLocales: Locales,
                     fields: seq<Field>, native: set<string>)
    requires NativeIs(body, locales, fields, native) && MetaIs(metaData, metaLocales, fields, native)
    ensures FieldsAre(body, metaData, fields, native)
  {
    forall key: string
      ensures key in body <==> Winner(fields, native, Native(key)).Some?
      ensures key in body ==> body[key] == Winner(fields, native, Native(key)).value.value
    {
      assert NativeAt(body, locales, Winner(fields, native, Native(key)), key);
    }
    forall i | 0 <= i < |metaData|
      ensures Winner(fields, native, Metadatum(metaData[i].key)).Some?
              && metaData[i].value == Winner(fields, native, Metadatum(metaData[i].key)).value.value
    {
      assert MetaAt(metaData[i], metaLocales, Winner(fields, native, Metadatum(metaData[i].key)));
    }
  }

  lemma {:induction false} FiltersFed(fields: seq<Field>, native: set<string>)
    ensures OnlyFilters(fields, native) != [] <==> Feeds(fields, native, Filters)
  {
    if fields != [] {
      var before, last := fields[..|fields| - 1], fields[|fields| - 1];
      FiltersFed(before, native);
      assert fields == before + [last];
      if Feeds(before, native, Filters) {
        var f :| f in before && TargetOf(f, native) == Filters;
        assert f in fields;
      }
    }
  }

  method PlanVariant(v: Variant, native: set<string>) returns (r: Result<VariantPlan, PlanError>)
    ensures r.Ok? <==> VariantProblem(v, native) == None
    ensures r.Err? ==> VariantProblem(v, native) == Some(r.error)
    ensures r.Ok? ==> VariantIs(r.value, v, native)
  {
    var fold, folded := FoldFields(v.fields, native);
    if folded.Err? {
      return Err(RemoteKeyRequired(folded.error));
    }
    FiltersFed(v.fields, native);
    if |fold.filterable| > 0 {
      return Err(VariantFilterable(v.externalId));
    }
    if folded.value {
      return Err(VariantTag(v.externalId));
    }
    return Ok(VariantPlan(v.externalId, fold.body, fold.metaData));
  }

  method PlanVariants(variants: seq<Variant>, native: set<string>) returns (r: Result<seq<VariantPlan>, PlanError>)
    ensures r.Ok? <==> VariantsProblem(variants, native) == None
    ensures r.Err? ==> VariantsProblem(variants, native) == Some(r.error)
    ensures r.Ok? ==> |r.value| == |variants|
    ensures r.Ok? ==> forall i :: 0 <= i < |variants| ==> VariantIs(r.value[i], variants[i], native)
  {
    var plans: seq<VariantPlan> := [];
    var i := 0;
    while i < |variants|
      invariant 0 <= i <= |variants| == |variants[i..]| + i
      invariant |plans| == i && forall k :: 0 <= k < i ==> VariantIs(plans[k], variants[k], native)
      invariant VariantsProblem(variants, native) == VariantsProblem(variants[i..], native)
    {
      assert variants[i..][1..] == variants[i + 1..];
      var plan := PlanVariant(variants[i], native);
      if plan.Err? {
        return Err(plan.error);
      }
      plans := plans + [plan.value];
      i := i + 1;
    }
    return Ok(plans);
  }

  /** Plans an item, or says why it cannot be. */
  method BuildCatalogPlan(item: Item, native: NativeFields)
    returns (r: Result<Plan, PlanError>)
    ensures r.Ok? <==> Problem(item, native) == None
    ensures r.Err? ==> Problem(item, native) == Some(r.error)
    ensures r.Ok? ==> PlanIs(r.value, item, native)
  {
    var fold, folded := FoldFields(item.fields, native.product);
    if folded.Err? {
      return Err(RemoteKeyRequired(folded.error));
    }
    var tags := if folded.value then Some(fold.tags) else None;
    var images := if item.images.Some? then Some(WooImages(item.images.value)) else None;
    var variants := PlanVariants(item.variants, native.variation);
    if variants.Err? {
      return Err(variants.error);
    }
    return Ok(Plan(fold.body, fold.metaData, tags, images, fold.filterable, variants.value));
  }

  /** A plan that may go into a batch. */
  predicate Batchable(plan: Plan) {
    && plan.filterable == [] && plan.variants == []
    && plan.images.None? && "images" !in plan.body
    && (plan.body != map[] || plan.metaData != [] || plan.tags.Some?)
  }

  /** An item that only changes plain values of the product itself, and at least one. */
  ghost predicate Simple(item: Item, native: NativeFields) {
    && item.fields != [] && item.variants == [] && item.images.None?
    && !Feeds(item.fields, native.product, Filters)
    && !Feeds(item.fields, native.product, Native("images"))
  }

  /** Fields that need no key, or have one, leave something in a body, the metadata, the filters or the tags. */
  lemma NothingFoldedIff(body: map<string, Value>, metaData: seq<Meta>, fields: seq<Field>, native: set<string>)
    requires KeyProblem(fields, native) == None && FieldsAre(body, metaData, fields, native)
    ensures body == map[] && metaData == [] && !Feeds(fields, native, Filters) && !Feeds(fields, native, Tags)
       <==> fields == []
  {
    MetaOrderIsUnique(fields, native);
    FirstFits(fields, native, Keyless, false);
    if fields == [] {
      assert body == map[] by {
        forall key: string ensures key !in body {
          WinnerExists(fields, native, Native(key));
        }
      }
    } else {
      var f := fields[0];
      match TargetOf(f, native) {
        case Native(key) => WinnerExists(fields, native, Native(key));
        case Metadatum(key) => assert key in MetaOrder(fields, native);
        case _ =>
      }
    }
  }

  /** Exactly the plans of simple items may go into a batch. */
  lemma BatchableIff(plan: Plan, item: Item, native: NativeFields)
    requires Problem(item, native) == None && PlanIs(plan, item, native)
    ensures Batchable(plan) <==> Simple(item, native)
  {
    FiltersFed(item.fields, native.product);
    WinnerExists(item.fields, native.product, Native("images"));
    NothingFoldedIff(plan.body, plan.metaData, item.fields, native.product);
  }

  // ---- What one item sends by itself -------------------------------------------------------------------

  /** The requests `pushCatalogItem` may make: reading the product's images, finding or making its attributes and terms,
      and the updates of the product and of its variants. */
  datatype ItemRequest = ReadImages | PrepareAttributes | PutProduct | PutVariant(k: nat)

  function PutIf(some: bool, k: nat): seq<ItemRequest> {
    if some then [PutVariant(k)] else []
  }

  function VariantPuts(variants: seq<VariantPlan>): seq<ItemRequest> {
    if variants == [] then []
    else
      var n := |variants| - 1;
      VariantPuts(variants[..n]) + PutIf(variants[n].body != map[] || variants[n].metaData != [], n)
  }

  /** The requests a plan makes, in order, as long as none fails; an empty update is not sent. */
  function RequestsOf(plan: Plan): seq<ItemRequest> { ProductRequests(plan) + VariantPuts(plan.variants) }

  function ProductRequests(plan: Plan): seq<ItemRequest> {
    (if plan.images.Some? || ("images" in plan.body && plan.body["images"].Many?) then [ReadImages] else [])
    + (if plan.filterable != [] then [PrepareAttributes] else [])
    + (if plan.body != map[] || plan.metaData != [] || plan.tags.Some? || plan.images.Some? || plan.filterable != []
       then [PutProduct] else [])
  }

  function VariantsWithFields(variants: seq<Variant>): seq<ItemRequest> {
    if variants == [] then []
    else
      var n := |variants| - 1;
      VariantsWithFields(variants[..n]) + PutIf(variants[n].fields != [], n)
  }

  /** The list of images an item carries: its own, or a field whose value is a list. */
  predicate CarriesImages(item: Item, native: NativeFields) {
    item.images.Some?
    || (Winner(item.fields, native.product, Native("images")).Some?
        && Winner(item.fields, native.product, Native("images")).value.value.Many?)
  }

  /** What an item asks for: its images are read when it carries some, attributes are prepared when it has filters, the
      product is updated when it has fields or images, and so is every variant that has fields. */
  ghost function RequestsFor(item: Item, native: NativeFields): seq<ItemRequest> {
    ProductAsks(item, native) + VariantsWithFields(item.variants)
  }

  ghost function ProductAsks(item: Item, native: NativeFields): seq<ItemRequest> {
    (if CarriesImages(item, native) then [ReadImages] else [])
    + (if Feeds(item.fields, native.product, Filters) then [PrepareAttributes] else [])
    + (if item.fields != [] || item.images.Some? then [PutProduct] else [])
  }

  lemma {:induction false} VariantsHaveNoProblem(variants: seq<Variant>, native: set<string>, k: nat)
    requires VariantsProblem(variants, native) == None && k < |variants|
    ensures VariantProblem(variants[k], native) == None
  {
    if k > 0 {
      VariantsHaveNoProblem(variants[1..], native, k - 1);
    }
  }

  lemma {:induction false} VariantPutsAre(plans: seq<VariantPlan>, variants: seq<Variant>, native: set<string>)
    requires |plans| == |variants|
    requires forall k :: 0 <= k < |plans| ==>
               VariantIs(plans[k], variants[k], native) && VariantProblem(variants[k], native) == None
    ensures VariantPuts(plans) == VariantsWithFields(variants)
  {
    if plans != [] {
      var n := |plans| - 1;
      VariantPutsAre(plans[..n], variants[..n], native);
      assert VariantIs(plans[n], variants[n], native);
      NothingFoldedIff(plans[n].body, plans[n].metaData, variants[n].fields, native);
    }
  }

  lemma ProductRequestsAre(plan: Plan, item: Item, native: NativeFields)
    requires Problem(item, native) == None && PlanIs(plan, item, native)
    ensures ProductRequests(plan) == ProductAsks(item, native)
  {
    FiltersFed(item.fields, native.product);
    NothingFoldedIff(plan.body, plan.metaData, item.fields, native.product);
    assert "images" in plan.body <==> Winner(item.fields, native.product, Native("images")).Some?;
  }

  lemma VariantsArePlanned(plan: Plan, item: Item, native: NativeFields)
    requires Problem(item, native) == None && PlanIs(plan, item, native)
    ensures VariantPuts(plan.variants) == VariantsWithFields(item.variants)
  {
    forall k | 0 <= k < |plan.variants| ensures VariantProblem(item.variants[k], native.variation) == None {
      VariantsHaveNoProblem(item.variants, native.variation, k);
    }
    VariantPutsAre(plan.variants, item.variants, native.variation);
  }

  /** A plan makes exactly the requests its item asks for. */
  lemma PlanRequestsAre(plan: Plan, item: Item, native: NativeFields)
    requires Problem(item, native) == None && PlanIs(plan, item, native)
    ensures RequestsOf(plan) == RequestsFor(item, native)
  {
    ProductRequestsAre(plan, item, native);
    VariantsArePlanned(plan, item, native);
  }
}
