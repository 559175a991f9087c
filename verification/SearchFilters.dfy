/** `buildWhere`: from the requested filters to clauses with numbered placeholders. */
module SearchFilters {
  import opened Wrappers
  import opened JsText

  /** What one attribute filter asks for: a string or a list of strings. */
  datatype Wanted = One(value: string) | AnyOf(values: seq<string>)

  datatype Query = Query(
    text: string,
    kind: Option<string>,
    organization: Option<string>,
    status: Option<string>,
    category: Option<string>,
    brand: Option<string>,
    attributes: seq<(string, Wanted)>)

  /** The columns of the index that filters look at; an attribute holds a string or a list of strings. */
  datatype Row = Row(
    text: string,
    kind: string,
    organization: Option<string>,
    status: Option<string>,
    categories: seq<string>,
    brands: seq<string>,
    attributes: map<string, Wanted>)

  /** The filters that compare one column with one value. */
  datatype Column = Kind | Organization | Status | Category | Brand

  /** A clause of the WHERE text about slots, which hold placeholder numbers (counted from one) or values. */
  datatype Clause<Slot> =
    | TextMatches(query: Slot)
    | ColumnIs(column: Column, value: Slot)
    | Never
    | HasAttribute(name: Slot, choices: seq<Slot>)

  /** A clause with every placeholder replaced by its value. */
  type Condition = Clause<string>

  predicate Blank(text: string) { Trim(text) == "" }

  /** JavaScript counts an empty string as absent. */
  function TextOf(filter: Option<string>): string {
    if filter.Some? then filter.value else ""
  }

  predicate Given(filter: Option<string>) { TextOf(filter) != "" }

  function ValuesOf(w: Wanted): seq<string> {
    match w
    case One(value) => [value]
    case AnyOf(values) => values
  }

  lemma ValuesOfAre(w: Wanted, v: string)
    ensures v in ValuesOf(w) <==> w == One(v) || (w.AnyOf? && v in w.values)
  {
  }

  predicate ColumnHas(row: Row, column: Column, value: string) {
    match column
    case Kind => row.kind == value
    case Organization => row.organization == Some(value)
    case Status => row.status == Some(value)
    case Category => value in row.categories
    case Brand => value in row.brands
  }

  /** What the database answers for one condition; `matches` is its full-text search. */
  predicate Satisfies(matches: (string, string) -> bool, row: Row, c: Condition) {
    match c
    case TextMatches(query) => matches(row.text, query)
    case ColumnIs(column, value) => ColumnHas(row, column, value)
    case Never => false
    case HasAttribute(name, choices) =>
      name in row.attributes && exists v :: v in ValuesOf(row.attributes[name]) && v in choices
  }

  /** What the caller asked for, filter by filter; an empty filter and a text of white space ask for nothing. */
  ghost predicate Requested(matches: (string, string) -> bool, q: Query, row: Row) {
    && (Trim(q.text) != "" ==> matches(row.text, q.text))
    && (q.kind.Some? && q.kind.value != "" ==> row.kind == q.kind.value)
    && (q.organization.Some? && q.organization.value != "" ==> row.organization == Some(q.organization.value))
    && (q.status.Some? && q.status.value != "" ==> row.status == Some(q.status.value))
    && (q.category.Some? && q.category.value != "" ==> q.category.value in row.categories)
    && (q.brand.Some? && q.brand.value != "" ==> q.brand.value in row.brands)
    && forall a :: a in q.attributes ==> HasOneOf(row, a.0, ValuesOf(a.1))
  }

  ghost predicate HasOneOf(row: Row, name: string, choices: seq<string>) {
    name in row.attributes && exists v :: v in choices && v in ValuesOf(row.attributes[name])
  }

  predicate Within(c: Clause<nat>, n: nat) {
    match c
    case TextMatches(k) => 1 <= k <= n
    case ColumnIs(_, k) => 1 <= k <= n
    case Never => true
    case HasAttribute(k, choices) => 1 <= k <= n && forall i :: 0 <= i < |choices| ==> 1 <= choices[i] <= n
  }

  predicate Mentions(c: Clause<nat>, k: nat) {
    match c
    case TextMatches(j) => j == k
    case ColumnIs(_, j) => j == k
    case Never => false
    case HasAttribute(j, choices) => j == k || k in choices
  }

  function Values(choices: seq<nat>, values: seq<string>): seq<string>
    requires forall i :: 0 <= i < |choices| ==> 1 <= choices[i] <= |values|
  {
    seq(|choices|, i requires 0 <= i < |choices| => values[choices[i] - 1])
  }

  function Resolve(c: Clause<nat>, values: seq<string>): Condition
    requires Within(c, |values|)
  {
    match c
    case TextMatches(k) => TextMatches(values[k - 1])
    case ColumnIs(column, k) => ColumnIs(column, values[k - 1])
    case Never => Never
    case HasAttribute(k, choices) => HasAttribute(values[k - 1], Values(choices, values))
  }

  /** The clauses, each placeholder read as its value, are the conditions. */
  ghost predicate Means(clauses: seq<Clause<nat>>, values: seq<string>, conditions: seq<Condition>) {
    && |clauses| == |conditions|
    && forall i :: 0 <= i < |clauses| ==> Within(clauses[i], |values|) && Resolve(clauses[i], values) == conditions[i]
  }

  lemma ResolveKeeps(c: Clause<nat>, values: seq<string>, more: seq<string>)
    requires Within(c, |values|)
    ensures Within(c, |values + more|) && Resolve(c, values + more) == Resolve(c, values)
  {
    if c.HasAttribute? {
      assert Values(c.choices, values + more) == Values(c.choices, values);
    }
  }

  /** Pushing values and one clause about them leaves the earlier clauses alone. */
  lemma MeansPush(clauses: seq<Clause<nat>>, values: seq<string>, conditions: seq<Condition>, more: seq<string>, c: Clause<nat>)
    requires Means(clauses, values, conditions)
    requires Within(c, |values + more|)
    ensures Means(clauses + [c], values + more, conditions + [Resolve(c, values + more)])
  {
    forall i | 0 <= i < |clauses|
      ensures Within(clauses[i], |values + more|) && Resolve(clauses[i], values + more) == conditions[i]
    {
      ResolveKeeps(clauses[i], values, more);
    }
  }

  function When(b: bool, c: Condition): seq<Condition> {
    if b then [c] else []
  }

  function ColumnCondition(column: Column, filter: Option<string>): seq<Condition> {
    When(Given(filter), ColumnIs(column, TextOf(filter)))
  }

  function AttributeCondition(a: (string, Wanted)): Condition {
    if ValuesOf(a.1) == [] then Never else HasAttribute(a.0, ValuesOf(a.1))
  }

  function AttributeConditions(attributes: seq<(string, Wanted)>): (r: seq<Condition>)
    ensures |r| == |attributes|
    ensures forall i :: 0 <= i < |r| ==> r[i] == AttributeCondition(attributes[i])
  {
    seq(|attributes|, i requires 0 <= i < |attributes| => AttributeCondition(attributes[i]))
  }

  /** The conditions a query stands for, in clause order. */
  function PlainConditions(q: Query): seq<Condition> {
    When(!Blank(q.text), TextMatches(q.text))
    + ColumnCondition(Kind, q.kind)
    + ColumnCondition(Organization, q.organization)
    + ColumnCondition(Status, q.status)
    + ColumnCondition(Category, q.category)
    + ColumnCondition(Brand, q.brand)
  }

  function Conditions(q: Query): seq<Condition> {
    PlainConditions(q) + AttributeConditions(q.attributes)
  }

  /** Without a text to look for, no condition is about the text. */
  lemma OnlyTextHasTextClause(q: Query)
    requires Blank(q.text)
    ensures forall i :: 0 <= i < |Conditions(q)| ==> !Conditions(q)[i].TextMatches?
  {
    var plain := PlainConditions(q);
    assert forall i :: 0 <= i < |plain| ==> plain[i].ColumnIs?;
    assert forall a :: !AttributeCondition(a).TextMatches?;
  }

  /** Some clause refers to `$k`. */
  ghost predicate Referenced(clauses: seq<Clause<nat>>, k: nat) {
    exists c :: c in clauses && Mentions(c, k)
  }

  ghost predicate AllReferenced(clauses: seq<Clause<nat>>, n: nat) {
    forall k :: 1 <= k <= n ==> Referenced(clauses, k)
  }

  ghost predicate AsksForNothing(attributes: seq<(string, Wanted)>) {
    exists a :: a in attributes && ValuesOf(a.1) == []
  }

  /** A clause about all the values just pushed, and about nothing else, keeps every value referenced; a clause about
      none of them leaves them unreferenced for good. */
  lemma ReferencedPush(clauses: seq<Clause<nat>>, n: nat, m: nat, c: Clause<nat>)
    requires n <= m
    requires forall d, k: nat :: d in clauses && Mentions(d, k) ==> k <= n
    requires forall k: nat :: Mentions(c, k) ==> n < k
    requires (forall k :: n < k <= m ==> Mentions(c, k)) || (n < m && forall k :: n < k <= m ==> !Mentions(c, k))
    ensures AllReferenced(clauses + [c], m) <==> AllReferenced(clauses, n) && forall k :: n < k <= m ==> Mentions(c, k)
  {
    var all := clauses + [c];
    assert all[|clauses|] == c;
    assert forall d :: d in clauses ==> d in all;
    if AllReferenced(all, m) {
      if n < m {
        assert Referenced(all, m);
      }
      forall k | 1 <= k <= n ensures Referenced(clauses, k) {
        assert Referenced(all, k);
      }
    }
    if AllReferenced(clauses, n) && forall k :: n < k <= m ==> Mentions(c, k) {
      forall k | 1 <= k <= m ensures Referenced(all, k) {
        if k <= n {
          assert Referenced(clauses, k);
          var d :| d in clauses && Mentions(d, k);
          assert d in all;
        } else {
          assert c in all && Mentions(c, k);
        }
      }
    }
  }

  /** What holds between any two clauses of `BuildWhere`. */
  ghost predicate Built(clauses: seq<Clause<nat>>, values: seq<string>, conditions: seq<Condition>, complete: bool) {
    && Means(clauses, values, conditions)
    && (AllReferenced(clauses, |values|) <==> complete)
  }

  lemma BuiltPush(clauses: seq<Clause<nat>>, values: seq<string>, conditions: seq<Condition>, complete: bool,
                  more: seq<string>, c: Clause<nat>)
    requires Built(clauses, values, conditions, complete)
    requires Within(c, |values + more|)
    requires forall k: nat :: Mentions(c, k) ==> |values| < k
    requires more != []
    requires (forall k :: |values| < k <= |values + more| ==> Mentions(c, k)) || c == Never
    ensures Built(clauses + [c], values + more, conditions + [Resolve(c, values + more)], complete && c != Never)
  {
    MeansPush(clauses, values, conditions, more, c);
    forall d, k: nat | d in clauses && Mentions(d, k) ensures k <= |values| {
      var i :| 0 <= i < |clauses| && clauses[i] == d;
      assert Within(clauses[i], |values|);
    }
    ReferencedPush(clauses, |values|, |values + more|, c);
    if c == Never {
      assert !Mentions(c, |values| + 1);
    }
  }

  /** The clauses and the values their placeholders denote. */
  method BuildWhere(q: Query) returns (clauses: seq<Clause<nat>>, values: seq<string>)
    ensures Means(clauses, values, Conditions(q))
    ensures !Blank(q.text) ==> values != [] && values[0] == q.text
    ensures AllReferenced(clauses, |values|) <==> !AsksForNothing(q.attributes)
  {
    clauses, values := [], [];
    if |Trim(q.text)| > 0 {
      BuiltPush(clauses, values, [], true, [q.text], TextMatches(1));
      values := values + [q.text];
      clauses := clauses + [TextMatches(|values|)];
    }
    ghost var conditions := When(!Blank(q.text), TextMatches(q.text));
    clauses, values := AddColumn(Kind, q.kind, clauses, values, conditions);
    conditions := conditions + ColumnCondition(Kind, q.kind);
    clauses, values := AddColumn(Organization, q.organization, clauses, values, conditions);
    conditions := conditions + ColumnCondition(Organization, q.organization);
    clauses, values := AddColumn(Status, q.status, clauses, values, conditions);
    conditions := conditions + ColumnCondition(Status, q.status);
    clauses, values := AddColumn(Category, q.category, clauses, values, conditions);
    conditions := conditions + ColumnCondition(Category, q.category);
    clauses, values := AddColumn(Brand, q.brand, clauses, values, conditions);
    conditions := conditions + ColumnCondition(Brand, q.brand);
    assert conditions == PlainConditions(q);
    clauses, values := AddAttributes(q.attributes, clauses, values, conditions);
  }

  /** One of the five filters on a single column. */
  method AddColumn(column: Column, filter: Option<string>, clauses0: seq<Clause<nat>>, values0: seq<string>,
                   ghost conditions: seq<Condition>)
    returns (clauses: seq<Clause<nat>>, values: seq<string>)
    requires Built(clauses0, values0, conditions, true)
    ensures values0 <= values
    ensures Built(clauses, values, conditions + ColumnCondition(column, filter), true)
  {
    clauses, values := clauses0, values0;
    if Given(filter) {
      BuiltPush(clauses, values, conditions, true, [filter.value], ColumnIs(column, |values| + 1));
      values := values + [filter.value];
      clauses := clauses + [ColumnIs(column, |values|)];
    } else {
      assert conditions + ColumnCondition(column, filter) == conditions;
    }
  }

  /** The loop over the attribute filters. */
  method AddAttributes(attributes: seq<(string, Wanted)>, clauses0: seq<Clause<nat>>, values0: seq<string>,
                       ghost conditions: seq<Condition>)
    returns (clauses: seq<Clause<nat>>, values: seq<string>)
    requires Built(clauses0, values0, conditions, true)
    ensures values0 <= values
    ensures Built(clauses, values, conditions + AttributeConditions(attributes), !AsksForNothing(attributes))
  {
    clauses, values := clauses0, values0;
    var i := 0;
    assert conditions + AttributeConditions(attributes[..0]) == conditions;
    while i < |attributes|
      invariant 0 <= i <= |attributes|
      invariant values0 <= values
      invariant Built(clauses, values, conditions + AttributeConditions(attributes[..i]),
                      !AsksForNothing(attributes[..i]))
    {
      var name, requested := attributes[i].0, ValuesOf(attributes[i].1);
      AttributeConditionsGrow(attributes, i);
      ghost var before := conditions + AttributeConditions(attributes[..i]);
      ghost var complete := !AsksForNothing(attributes[..i]);
      if |requested| == 0 {
        BuiltPush(clauses, values, before, complete, [name], Never);
        clauses, values := clauses + [Never], values + [name];
      } else {
        var key := |values| + 1;
        var pushed, choices := PushChoices(name, requested, values);
        BuiltPush(clauses, values, before, complete, [name] + requested, HasAttribute(key, choices));
        assert Values(choices, pushed) == requested;
        clauses, values := clauses + [HasAttribute(key, choices)], pushed;
      }
      i := i + 1;
    }
    assert attributes[..i] == attributes;
  }

  lemma AttributeConditionsGrow(attributes: seq<(string, Wanted)>, i: nat)
    requires i < |attributes|
    ensures AttributeConditions(attributes[..i + 1])
         == AttributeConditions(attributes[..i]) + [AttributeCondition(attributes[i])]
    ensures AsksForNothing(attributes[..i + 1])
       <==> AsksForNothing(attributes[..i]) || ValuesOf(attributes[i].1) == []
  {
    assert attributes[..i + 1] == attributes[..i] + [attributes[i]];
  }

  /** Pushes the name, then each requested value, noting each value's placeholder. */
  method PushChoices(name: string, requested: seq<string>, values0: seq<string>)
    returns (values: seq<string>, choices: seq<nat>)
    ensures values == values0 + ([name] + requested)
    ensures |choices| == |requested|
    ensures forall j :: 0 <= j < |choices| ==> choices[j] == |values0| + 2 + j
    ensures forall k :: |values0| + 1 < k <= |values| ==> k in choices
  {
    values, choices := values0 + [name], [];
    var j := 0;
    while j < |requested|
      invariant 0 <= j <= |requested|
      invariant values == values0 + ([name] + requested[..j])
      invariant |choices| == j
      invariant forall h :: 0 <= h < j ==> choices[h] == |values0| + 2 + h
    {
      values := values + [requested[j]];
      choices := choices + [|values|];
      j := j + 1;
    }
    assert requested[..j] == requested;
    forall k | |values0| + 1 < k <= |values| ensures k in choices {
      assert choices[k - |values0| - 2] == k;
    }
  }

  /** All clauses hold of the row. */
  ghost predicate Selects(matches: (string, string) -> bool, clauses: seq<Clause<nat>>, values: seq<string>, row: Row)
    requires forall i :: 0 <= i < |clauses| ==> Within(clauses[i], |values|)
  {
    forall i :: 0 <= i < |clauses| ==> Satisfies(matches, row, Resolve(clauses[i], values))
  }

  predicate SatisfiesAll(matches: (string, string) -> bool, conditions: seq<Condition>, row: Row) {
    conditions == []
    || (Satisfies(matches, row, conditions[0]) && SatisfiesAll(matches, conditions[1..], row))
  }

  lemma {:induction false} SatisfiesEach(matches: (string, string) -> bool, conditions: seq<Condition>, row: Row)
    ensures SatisfiesAll(matches, conditions, row)
       <==> forall i :: 0 <= i < |conditions| ==> Satisfies(matches, row, conditions[i])
  {
    if conditions != [] {
      var rest := conditions[1..];
      SatisfiesEach(matches, rest, row);
      assert forall i :: 0 < i < |conditions| ==> conditions[i] == rest[i - 1];
      if forall i :: 0 <= i < |conditions| ==> Satisfies(matches, row, conditions[i]) {
        assert forall i :: 0 <= i < |rest| ==> rest[i] == conditions[i + 1];
      }
    }
  }

  lemma {:induction false} SatisfiesBoth(matches: (string, string) -> bool, a: seq<Condition>, b: seq<Condition>,
                                         row: Row)
    ensures SatisfiesAll(matches, a + b, row) <==> SatisfiesAll(matches, a, row) && SatisfiesAll(matches, b, row)
  {
    if a == [] {
      assert a + b == b;
    } else {
      assert (a + b)[1..] == a[1..] + b;
      SatisfiesBoth(matches, a[1..], b, row);
    }
  }

  lemma ColumnIsMet(matches: (string, string) -> bool, row: Row, before: seq<Condition>, column: Column,
                    filter: Option<string>)
    ensures SatisfiesAll(matches, before + ColumnCondition(column, filter), row)
       <==> SatisfiesAll(matches, before, row) && (Given(filter) ==> ColumnHas(row, column, TextOf(filter)))
  {
    SatisfiesBoth(matches, before, ColumnCondition(column, filter), row);
  }

  lemma AttributesAreMet(matches: (string, string) -> bool, row: Row, attributes: seq<(string, Wanted)>)
    ensures SatisfiesAll(matches, AttributeConditions(attributes), row)
       <==> forall a :: a in attributes ==> HasOneOf(row, a.0, ValuesOf(a.1))
  {
    var conditions := AttributeConditions(attributes);
    forall i | 0 <= i < |attributes|
      ensures Satisfies(matches, row, conditions[i]) <==> HasOneOf(row, attributes[i].0, ValuesOf(attributes[i].1))
    {
    }
    SatisfiesEach(matches, conditions, row);
    if SatisfiesAll(matches, conditions, row) {
      forall a | a in attributes ensures HasOneOf(row, a.0, ValuesOf(a.1)) {
        var i :| 0 <= i < |attributes| && attributes[i] == a;
        assert Satisfies(matches, row, conditions[i]);
      }
    }
  }

  /** The conditions mean what was asked, filter by filter. */
  lemma ConditionsMeanTheRequest(matches: (string, string) -> bool, q: Query, row: Row)
    ensures SatisfiesAll(matches, Conditions(q), row) <==> Requested(matches, q, row)
  {
    var a := When(!Blank(q.text), TextMatches(q.text));
    ColumnIsMet(matches, row, a, Kind, q.kind);
    var b := a + ColumnCondition(Kind, q.kind);
    ColumnIsMet(matches, row, b, Organization, q.organization);
    var c := b + ColumnCondition(Organization, q.organization);
    ColumnIsMet(matches, row, c, Status, q.status);
    var d := c + ColumnCondition(Status, q.status);
    ColumnIsMet(matches, row, d, Category, q.category);
    var e := d + ColumnCondition(Category, q.category);
    ColumnIsMet(matches, row, e, Brand, q.brand);
    AttributesAreMet(matches, row, q.attributes);
    SatisfiesBoth(matches, PlainConditions(q), AttributeConditions(q.attributes), row);
  }

  /** A row passes the WHERE clause exactly when it is what the caller asked for. */
  lemma WhereMeansTheRequest(matches: (string, string) -> bool, q: Query, clauses: seq<Clause<nat>>, values: seq<string>,
                             row: Row)
    requires Means(clauses, values, Conditions(q))
    ensures Selects(matches, clauses, values, row) <==> Requested(matches, q, row)
  {
    ConditionsMeanTheRequest(matches, q, row);
    SatisfiesEach(matches, Conditions(q), row);
  }

  /** An empty list of wanted values matches no row at all. */
  lemma AnEmptyListMatchesNothing(matches: (string, string) -> bool, q: Query, clauses: seq<Clause<nat>>,
                                  values: seq<string>, row: Row)
    requires Means(clauses, values, Conditions(q)) && AsksForNothing(q.attributes)
    ensures !Selects(matches, clauses, values, row)
  {
    WhereMeansTheRequest(matches, q, clauses, values, row);
    var a :| a in q.attributes && ValuesOf(a.1) == [];
    assert !HasOneOf(row, a.0, ValuesOf(a.1));
  }
}
