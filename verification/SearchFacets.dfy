/** `computeFacets`: counting the values of the matching documents. */
module SearchFacets {
  import opened Wrappers
  import opened SearchFilters

  datatype Document = Document(
    kind: string,
    status: Option<string>,
    categories: seq<string>,
    brands: seq<string>,
    attributes: map<string, Wanted>)

  const RESERVED: set<string> := {"type", "status", "category", "categories", "brand", "brands"}

  /** `new Set(values)`, in insertion order. */
  function Distinct(values: seq<string>): (r: seq<string>)
    ensures forall v :: v in r <==> v in values
    ensures forall v :: v in r ==> multiset(r)[v] == 1
  {
    if values == [] then []
    else
      var before, last := Distinct(values[..|values| - 1]), values[|values| - 1];
      assert values == values[..|values| - 1] + [last];
      if last in before then before else before + [last]
  }

  function AttributeValues(d: Document, name: string): seq<string> {
    if name in d.attributes then ValuesOf(d.attributes[name]) else []
  }

  /** What one document contributes to the facet `name`. */
  function Contribution(d: Document, name: string): seq<string> {
    if name == "type" then [d.kind]
    else if name == "status" then [if d.status.Some? then d.status.value else "unknown"]
    else if name == "category" then d.categories
    else if name == "brand" then d.brands
    else Distinct(AttributeValues(d, name))
  }

  function Counted(documents: seq<Document>, name: string, value: string): nat {
    if documents == [] then 0
    else
      Counted(documents[..|documents| - 1], name, value)
      + multiset(Contribution(documents[|documents| - 1], name))[value]
  }

  type Counts = map<string, nat>

  /** `counts[v] = (counts[v] ?? 0) + 1` */
  function Bump(counts: Counts, v: string): Counts {
    counts[v := (if v in counts then counts[v] else 0) + 1]
  }

  function At(counts: Counts, v: string): nat {
    if v in counts then counts[v] else 0
  }

  /** Every value that occurs, with how often; nothing else. */
  ghost predicate IsTally(counts: Counts, documents: seq<Document>, name: string) {
    forall v :: (v in counts <==> Counted(documents, name, v) > 0) && At(counts, v) == Counted(documents, name, v)
  }

  method CountAll(values: seq<string>, before: Counts) returns (counts: Counts)
    requires forall v :: v in before <==> At(before, v) > 0
    ensures forall v :: At(counts, v) == At(before, v) + multiset(values)[v]
    ensures forall v :: v in counts <==> At(counts, v) > 0
  {
    counts := before;
    var j := 0;
    while j < |values|
      invariant 0 <= j <= |values|
      invariant forall v :: At(counts, v) == At(before, v) + multiset(values[..j])[v]
      invariant forall v :: v in counts <==> At(counts, v) > 0
    {
      assert values[..j + 1] == values[..j] + [values[j]];
      counts := Bump(counts, values[j]);
      j := j + 1;
    }
    assert values[..j] == values;
  }

  method Tally(documents: seq<Document>, name: string) returns (counts: Counts)
    ensures IsTally(counts, documents, name)
  {
    counts := map[];
    var i := 0;
    while i < |documents|
      invariant 0 <= i <= |documents|
      invariant IsTally(counts, documents[..i], name)
    {
      counts := CountAll(Contribution(documents[i], name), counts);
      assert documents[..i + 1][..i] == documents[..i];
      i := i + 1;
    }
    assert documents[..i] == documents;
  }

  /** The attribute a requested facet names. */
  function AttributeName(facet: string): string {
    if "attributes." <= facet then facet[|"attributes."|..] else facet
  }

  function Facets(requested: seq<string>): seq<string> {
    if requested != [] then requested else ["type", "status", "category", "brand"]
  }

  /** Whether the answer holds the facet `name`: one of the four fixed facets when asked for, any other attribute when
      asked for and some document has it. */
  ghost predicate Present(documents: seq<Document>, facets: seq<string>, name: string) {
    || name in FixedKeys("type" in facets, "status" in facets, "category" in facets || "categories" in facets,
                         "brand" in facets || "brands" in facets)
    || PresentAttribute(documents, facets, name)
  }

  ghost predicate PresentAttribute(documents: seq<Document>, facets: seq<string>, name: string) {
    && name !in RESERVED
    && (exists facet :: facet in facets && AttributeName(facet) == name)
    && exists d :: d in documents && AttributeValues(d, name) != []
  }

  /** The documents that have `value` under the attribute `name`. */
  function Having(documents: seq<Document>, name: string, value: string): nat {
    if documents == [] then 0
    else
      Having(documents[..|documents| - 1], name, value)
      + if value in AttributeValues(documents[|documents| - 1], name) then 1 else 0
  }

  /** An attribute facet counts documents, however often one repeats the value. */
  lemma {:induction false} AttributeFacetsCountDocuments(documents: seq<Document>, name: string, value: string)
    requires name !in RESERVED
    ensures Counted(documents, name, value) == Having(documents, name, value) <= |documents|
  {
    if documents != [] {
      AttributeFacetsCountDocuments(documents[..|documents| - 1], name, value);
      var values := AttributeValues(documents[|documents| - 1], name);
      assert value in Distinct(values) <==> value in values;
      assert value !in Distinct(values) ==> multiset(Distinct(values))[value] == 0;
    }
  }

  lemma {:induction false} HavingSome(documents: seq<Document>, name: string, value: string)
    ensures Having(documents, name, value) > 0 <==> exists d :: d in documents && value in AttributeValues(d, name)
  {
    if documents != [] {
      var before := documents[..|documents| - 1];
      HavingSome(before, name, value);
      assert documents == before + [documents[|documents| - 1]];
    }
  }

  lemma CountedIffPresent(documents: seq<Document>, name: string)
    requires name !in RESERVED
    ensures (exists v :: Counted(documents, name, v) > 0)
       <==> exists d :: d in documents && AttributeValues(d, name) != []
  {
    if v :| Counted(documents, name, v) > 0 {
      AttributeFacetsCountDocuments(documents, name, v);
      HavingSome(documents, name, v);
    }
    if d :| d in documents && AttributeValues(d, name) != [] {
      var v := AttributeValues(d, name)[0];
      AttributeFacetsCountDocuments(documents, name, v);
      HavingSome(documents, name, v);
    }
  }

  function CountIf(documents: seq<Document>, counts: Document -> bool): nat {
    if documents == [] then 0
    else CountIf(documents[..|documents| - 1], counts) + if counts(documents[|documents| - 1]) then 1 else 0
  }

  /** The lists of all documents, one after the other. */
  function AllOf(documents: seq<Document>, list: Document -> seq<string>): seq<string> {
    if documents == [] then []
    else AllOf(documents[..|documents| - 1], list) + list(documents[|documents| - 1])
  }

  /** The type facet counts the documents of a type. */
  lemma {:induction false} TypeFacetCounts(documents: seq<Document>, value: string)
    ensures Counted(documents, "type", value) == CountIf(documents, (d: Document) => d.kind == value)
  {
    if documents != [] {
      TypeFacetCounts(documents[..|documents| - 1], value);
    }
  }

  /** The status facet counts the documents of a status, and one without a status as unknown. */
  lemma {:induction false} StatusFacetCounts(documents: seq<Document>, value: string)
    ensures Counted(documents, "status", value)
         == CountIf(documents, (d: Document) => d.status == Some(value) || (d.status.None? && value == "unknown"))
  {
    if documents != [] {
      StatusFacetCounts(documents[..|documents| - 1], value);
    }
  }

  /** The category and brand facets count how often a value is listed, in one document or in several. */
  lemma {:induction false} CategoryFacetCounts(documents: seq<Document>, value: string)
    ensures Counted(documents, "category", value) == multiset(AllOf(documents, (d: Document) => d.categories))[value]
  {
    if documents != [] {
      CategoryFacetCounts(documents[..|documents| - 1], value);
    }
  }

  lemma {:induction false} BrandFacetCounts(documents: seq<Document>, value: string)
    ensures Counted(documents, "brand", value) == multiset(AllOf(documents, (d: Document) => d.brands))[value]
  {
    if documents != [] {
      BrandFacetCounts(documents[..|documents| - 1], value);
    }
  }

  /** A requested name stands for an attribute, with or without the prefix. */
  lemma AttributeNameIff(facet: string, name: string)
    ensures AttributeName(facet) == name
       <==> facet == "attributes." + name || (facet == name && !("attributes." <= facet))
  {
    assert ("attributes." + name)[|"attributes."|..] == name;
  }

  /** Which of the fixed facets there are: those asked for, under either name, and all four when nothing was asked
      for. */
  lemma FixedFacetsPresentIff(documents: seq<Document>, requested: seq<string>)
    ensures Present(documents, Facets(requested), "type") <==> requested == [] || "type" in requested
    ensures Present(documents, Facets(requested), "status") <==> requested == [] || "status" in requested
    ensures Present(documents, Facets(requested), "category")
       <==> requested == [] || "category" in requested || "categories" in requested
    ensures Present(documents, Facets(requested), "brand")
       <==> requested == [] || "brand" in requested || "brands" in requested
    ensures !Present(documents, Facets(requested), "categories") && !Present(documents, Facets(requested), "brands")
  {
  }

  method ComputeFacets(documents: seq<Document>, requested: seq<string>) returns (output: map<string, Counts>)
    ensures forall name :: name in output <==> Present(documents, Facets(requested), name)
    ensures forall name :: name in output ==> IsTally(output[name], documents, name)
  {
    var facets := Facets(requested);
    var kind, status := "type" in facets, "status" in facets;
    var category, brand := "category" in facets || "categories" in facets, "brand" in facets || "brands" in facets;
    output := FixedFacets(documents, kind, status, category, brand);
    FixedKeysAreReserved(kind, status, category, brand);
    output := AddAttributeFacets(documents, facets, output);
  }

  /** The facets that are not attributes, each when wanted. */
  function FixedKeys(kind: bool, status: bool, category: bool, brand: bool): set<string> {
    NameIf("type", kind) + NameIf("status", status) + NameIf("category", category) + NameIf("brand", brand)
  }

  function NameIf(name: string, wanted: bool): set<string> {
    if wanted then {name} else {}
  }

  lemma FixedKeysAreReserved(kind: bool, status: bool, category: bool, brand: bool)
    ensures FixedKeys(kind, status, category, brand) <= RESERVED
  {
  }

  method FixedFacets(documents: seq<Document>, kind: bool, status: bool, category: bool, brand: bool)
    returns (output: map<string, Counts>)
    ensures output.Keys == FixedKeys(kind, status, category, brand)
    ensures forall name :: name in output ==> IsTally(output[name], documents, name)
  {
    output := map[];
    output := AddFixedFacet(documents, "type", kind, output);
    output := AddFixedFacet(documents, "status", status, output);
    output := AddFixedFacet(documents, "category", category, output);
    output := AddFixedFacet(documents, "brand", brand, output);
  }

  method AddFixedFacet(documents: seq<Document>, name: string, wanted: bool, before: map<string, Counts>)
    returns (output: map<string, Counts>)
    requires forall other :: other in before ==> IsTally(before[other], documents, other)
    ensures output.Keys == before.Keys + NameIf(name, wanted)
    ensures forall other :: other in output ==> IsTally(output[other], documents, other)
  {
    output := before;
    if wanted {
      var counts := Tally(documents, name);
      output := output[name := counts];
    }
  }

  method AddAttributeFacets(documents: seq<Document>, facets: seq<string>, fixed: map<string, Counts>)
    returns (output: map<string, Counts>)
    requires forall name :: name in fixed ==> name in RESERVED && IsTally(fixed[name], documents, name)
    ensures forall name :: name in output <==> name in fixed || PresentAttribute(documents, facets, name)
    ensures forall name :: name in output ==> IsTally(output[name], documents, name)
  {
    output := fixed;
    var i := 0;
    while i < |facets|
      invariant 0 <= i <= |facets|
      invariant forall name :: name in output <==> name in fixed || PresentAttribute(documents, facets[..i], name)
      invariant forall name :: name in output ==> IsTally(output[name], documents, name)
    {
      var name := AttributeName(facets[i]);
      assert facets[..i + 1] == facets[..i] + [facets[i]];
      if name !in RESERVED {
        var values := Tally(documents, name);
        CountedIffPresent(documents, name);
        if values != map[] {
          var v :| v in values;
          assert Counted(documents, name, v) > 0;
          output := output[name := values];
        }
      }
      i := i + 1;
    }
    assert facets[..i] == facets;
  }
}
