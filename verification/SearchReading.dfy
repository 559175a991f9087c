/**
 * What the statements select: a reader of their SQL, word by word, that knows nothing of how they were put together.
 */
module SearchReading {
  import opened Wrappers
  import opened SearchFilters
  import opened SearchStatements
  import opened PlaceholderSplit

  /** A word of the statement, or a parameter. */
  datatype Token = Word(text: string) | Datum(value: Value)

  function TokenOf(p: Piece<Value>, names: Names): Token {
    match p
    case Lit(f) => Word(Text(f, names))
    case Hole(v) => Datum(v)
  }

  function Tokens(pieces: seq<Piece<Value>>, names: Names): seq<Token> {
    seq(|pieces|, i requires 0 <= i < |pieces| => TokenOf(pieces[i], names))
  }

  /** The statement's characters and parameters, one after the other. */
  function Spoken(tokens: seq<Token>): seq<Sym<Value>> {
    if tokens == [] then []
    else (match tokens[0] case Word(text) => Chars(text) case Datum(v) => [Val(v)]) + Spoken(tokens[1..])
  }

  // ---- Reading -----------------------------------------------------------------------------------------

  const ELEMENTS := ("EXISTS (" + "SELECT 1 " + "FROM " + "jsonb_array_elements_text(")
                    + ("CASE WHEN " + "jsonb_typeof(" + "attributes" + " -> ")
  const IF_ARRAY := ") = 'array' " + "THEN " + "attributes" + " -> "
  const OR_SINGLE := " ELSE " + "jsonb_build_array(" + "attributes" + " ->> "
  const AMONG := ") END) AS " + "attribute_value " + "WHERE " + "attribute_value" + " IN ("
  const QUERIED := "', text) @@ " + "plainto_tsquery('"

  /** Just after the first `))` from `i` on. */
  function PastClose(t: seq<Token>, i: nat): (n: nat)
    requires i <= |t|
    ensures i <= n <= |t|
    decreases |t| - i
  {
    if i == |t| then i else if t[i] == Word("))") then i + 1 else PastClose(t, i + 1)
  }

  /** How many words the clause at the start of `t` takes. */
  function Extent(t: seq<Token>): (n: nat)
    requires t != []
    ensures 1 <= n <= |t|
  {
    var n := match t[0]
      case Datum(_) => 2
      case Word(w) =>
        if w == "FALSE" then 1
        else if w == "to_tsvector('" then 7
        else if w == ELEMENTS && |t| >= 7 then PastClose(t, 7)
        else 2;
    if n <= |t| then n else |t|
  }

  /** A list of texts separated by commas. */
  ghost predicate IsList(t: seq<Token>) {
    && |t| % 2 == 1
    && forall i :: 0 <= i < |t| ==> if i % 2 == 0 then t[i].Datum? && t[i].value.Str? else t[i] == Word(", ")
  }

  /** Whether the column, a single text or an array, has the text. */
  function Compared(w: string, v: string, row: Row): Option<bool> {
    if w == "type = " then Some(row.kind == v)
    else if w == "status = " then Some(row.status == Some(v))
    else if w == "payload ->> " + "'organizationId'" + " = " then Some(row.organization == Some(v))
    else None
  }

  function Contained(w: string, v: string, row: Row): Option<bool> {
    if w == " = ANY(" + "categories)" then Some(v in row.categories)
    else if w == " = ANY(brands)" then Some(v in row.brands)
    else None
  }

  /** Whether a clause holds of a row; `None` is no clause at all. `matches` is the database's full-text search. */
  ghost function Holds(matches: (string, string) -> bool, names: Names, t: seq<Token>, row: Row): Option<bool> {
    if t == [Word("FALSE")] then Some(false)
    else if |t| == 2 && t[0].Word? && t[1].Datum? && t[1].value.Str? then Compared(t[0].text, t[1].value.text, row)
    else if |t| == 2 && t[1].Word? && t[0].Datum? && t[0].value.Str? then Contained(t[1].text, t[0].value.text, row)
    else if |t| == 7 then TextHolds(matches, names, t, row)
    else if |t| >= 9 then AttributeHolds(t, row)
    else None
  }

  ghost function TextHolds(matches: (string, string) -> bool, names: Names, t: seq<Token>, row: Row): Option<bool>
    requires |t| == 7
  {
    if && t[0] == Word("to_tsvector('") && t[1] == Word(names.dictionary)
       && t[2] == Word(QUERIED) && t[3] == Word(names.dictionary) && t[4] == Word("', ")
       && t[5].Datum? && t[5].value.Str? && t[6] == Word(")")
    then Some(matches(row.text, t[5].value.text))
    else None
  }

  ghost function AttributeHolds(t: seq<Token>, row: Row): Option<bool>
    requires |t| >= 9
  {
    var list := t[7..|t| - 1];
    if && t[0] == Word(ELEMENTS) && t[2] == Word(IF_ARRAY) && t[4] == Word(OR_SINGLE) && t[6] == Word(AMONG)
       && t[1].Datum? && t[1].value.Str? && t[3] == t[1] && t[5] == t[1]
       && IsList(list) && t[|t| - 1] == Word("))")
    then
      var name := t[1].value.text;
      Some(name in row.attributes && exists v :: v in ValuesOf(row.attributes[name]) && Datum(Str(v)) in list)
    else None
  }

  /** Clauses with `AND` between them. */
  ghost function AllHold(matches: (string, string) -> bool, names: Names, t: seq<Token>, row: Row): Option<bool>
    decreases |t|
  {
    if t == [] then None
    else
      var n := Extent(t);
      var first := Holds(matches, names, t[..n], row);
      if n == |t| then first
      else if t[n] != Word(" AND ") then None
      else
        var rest := AllHold(matches, names, t[n + 1..], row);
        if first.Some? && rest.Some? then Some(first.value && rest.value) else None
  }

  /** The rows a statement is about: all of them when it has no WHERE. */
  ghost function Chosen(matches: (string, string) -> bool, names: Names, t: seq<Token>, row: Row): Option<bool> {
    if t == [] then Some(true)
    else if t[0] == Word("WHERE ") then AllHold(matches, names, t[1..], row)
    else None
  }

  // ---- One clause ----------------------------------------------------------------------------------------

  lemma TokensConcat(a: seq<Piece<Value>>, b: seq<Piece<Value>>, names: Names)
    ensures Tokens(a + b, names) == Tokens(a, names) + Tokens(b, names)
  {
  }

  /** The words of a clause are read as the clause, whatever follows. */
  ghost predicate ReadsAs(matches: (string, string) -> bool, names: Names, t: seq<Token>, row: Row, c: Condition) {
    && t != []
    && (forall rest :: Extent(t + rest) == |t|)
    && Holds(matches, names, t, row) == Some(Satisfies(matches, row, c))
  }

  lemma FalseText(names: Names)
    ensures Text(False, names) == "FALSE"
  {
  }

  lemma KindText(names: Names)
    ensures Text(KindEquals, names) == "type = "
  {
  }

  lemma OrganizationText(names: Names)
    ensures Text(OrganizationEquals, names) == "payload ->> " + "'organizationId'" + " = "
  {
  }

  lemma StatusText(names: Names)
    ensures Text(StatusEquals, names) == "status = "
  {
  }

  lemma CategoriesText(names: Names)
    ensures Text(AmongCategories, names) == " = ANY(" + "categories)"
  {
  }

  lemma BrandsText(names: Names)
    ensures Text(AmongBrands, names) == " = ANY(brands)"
  {
  }

  lemma VectorText(names: Names)
    ensures Text(Vector, names) == "to_tsvector('"
  {
  }

  lemma MatchesText(names: Names)
    ensures Text(Matches, names) == QUERIED
  {
  }

  lemma ArgumentText(names: Names)
    ensures Text(Argument, names) == "', " && Text(Close, names) == ")"
  {
  }

  lemma ElementsTexts(names: Names)
    ensures Text(Exists, names) == ELEMENTS
  {
  }

  lemma ArrayText(names: Names)
    ensures Text(IsArray, names) == IF_ARRAY
  {
  }

  lemma SingleText(names: Names)
    ensures Text(OrSingle, names) == OR_SINGLE
  {
  }

  lemma AmongText(names: Names)
    ensures Text(AmongElements, names) == AMONG
  {
  }

  lemma CloseText(names: Names)
    ensures Text(CloseExists, names) == "))"
  {
  }

  lemma CommaText(names: Names)
    ensures Text(Comma, names) == ", "
  {
  }

  lemma JoiningTexts(names: Names)
    ensures Text(Where, names) == "WHERE " && Text(And, names) == " AND "
  {
  }

  /** The first words of the clauses tell them apart. */
  lemma ComparisonsDiffer()
    ensures "status = " != "type = " && "payload ->> " + "'organizationId'" + " = " !in ["type = ", "status = "]
    ensures " = ANY(brands)" != " = ANY(" + "categories)"
  {
    assert |"payload ->> "| == 12;
    assert |"categories)"| == 11;
  }

  lemma OpeningsDiffer(w: string)
    requires w in ["type = ", "status = ", "payload ->> " + "'organizationId'" + " = "]
    ensures w != "FALSE" && w != "to_tsvector('" && w != ELEMENTS
  {
    assert w[0] != 'F' && w[0] != 'E' && (w[0] == 't' ==> w[1] == 'y');
    assert ELEMENTS[0] == 'E';
  }

  lemma CallsDiffer()
    ensures ELEMENTS != "FALSE" && ELEMENTS != "to_tsvector('" && "to_tsvector('" != "FALSE" && ", " != "))"
  {
    assert ELEMENTS[0] == 'E';
  }

  lemma TokenPair(a: Piece<Value>, b: Piece<Value>, names: Names)
    ensures Tokens([a, b], names) == [TokenOf(a, names), TokenOf(b, names)]
  {
  }

  lemma NeverReads(matches: (string, string) -> bool, names: Names, row: Row)
    ensures ReadsAs(matches, names, Tokens(ClausePieces(InValues(Never)), names), row, Never)
  {
    FalseText(names);
    assert Tokens([Lit(False)], names) == [Word("FALSE")];
  }

  lemma ComparedReads(matches: (string, string) -> bool, names: Names, row: Row, w: string, v: string, c: Condition)
    requires w in ["type = ", "status = ", "payload ->> " + "'organizationId'" + " = "]
    requires Compared(w, v, row) == Some(Satisfies(matches, row, c))
    ensures ReadsAs(matches, names, [Word(w), Datum(Str(v))], row, c)
  {
    OpeningsDiffer(w);
    var t := [Word(w), Datum(Str(v))];
    forall rest ensures Extent(t + rest) == 2 {
      assert (t + rest)[0] == Word(w);
    }
  }

  lemma ContainedReads(matches: (string, string) -> bool, names: Names, row: Row, w: string, v: string, c: Condition)
    requires Contained(w, v, row) == Some(Satisfies(matches, row, c))
    ensures ReadsAs(matches, names, [Datum(Str(v)), Word(w)], row, c)
  {
    var t := [Datum(Str(v)), Word(w)];
    forall rest ensures Extent(t + rest) == 2 {
      assert (t + rest)[0] == Datum(Str(v));
    }
  }

  lemma KindReads(matches: (string, string) -> bool, names: Names, row: Row, v: string)
    ensures ReadsAs(matches, names, Tokens(ClausePieces(ColumnIs(Kind, Str(v))), names), row, ColumnIs(Kind, v))
  {
    KindText(names);
    TokenPair(Lit(KindEquals), Hole(Str(v)), names);
    ComparedReads(matches, names, row, "type = ", v, ColumnIs(Kind, v));
  }

  lemma OrganizationReads(matches: (string, string) -> bool, names: Names, row: Row, v: string)
    ensures ReadsAs(matches, names, Tokens(ClausePieces(ColumnIs(Organization, Str(v))), names), row,
                    ColumnIs(Organization, v))
  {
    OrganizationText(names);
    TokenPair(Lit(OrganizationEquals), Hole(Str(v)), names);
    ComparisonsDiffer();
    ComparedReads(matches, names, row, "payload ->> " + "'organizationId'" + " = ", v, ColumnIs(Organization, v));
  }

  lemma StatusReads(matches: (string, string) -> bool, names: Names, row: Row, v: string)
    ensures ReadsAs(matches, names, Tokens(ClausePieces(ColumnIs(Status, Str(v))), names), row, ColumnIs(Status, v))
  {
    StatusText(names);
    TokenPair(Lit(StatusEquals), Hole(Str(v)), names);
    ComparisonsDiffer();
    ComparedReads(matches, names, row, "status = ", v, ColumnIs(Status, v));
  }

  lemma CategoryReads(matches: (string, string) -> bool, names: Names, row: Row, v: string)
    ensures ReadsAs(matches, names, Tokens(ClausePieces(ColumnIs(Category, Str(v))), names), row, ColumnIs(Category, v))
  {
    CategoriesText(names);
    TokenPair(Hole(Str(v)), Lit(AmongCategories), names);
    ContainedReads(matches, names, row, " = ANY(" + "categories)", v, ColumnIs(Category, v));
  }

  lemma BrandReads(matches: (string, string) -> bool, names: Names, row: Row, v: string)
    ensures ReadsAs(matches, names, Tokens(ClausePieces(ColumnIs(Brand, Str(v))), names), row, ColumnIs(Brand, v))
  {
    BrandsText(names);
    TokenPair(Hole(Str(v)), Lit(AmongBrands), names);
    ComparisonsDiffer();
    ContainedReads(matches, names, row, " = ANY(brands)", v, ColumnIs(Brand, v));
  }

  /** Both texts that name the dictionary twice have this shape. */
  lemma DictionaryWords(open: Fragment, between: Fragment, q: string, close: Fragment, names: Names)
    ensures Tokens([Lit(open), Lit(Dictionary), Lit(between), Lit(Dictionary), Lit(Argument), Hole(Str(q)), Lit(close)],
                   names)
         == [Word(Text(open, names)), Word(names.dictionary), Word(Text(between, names)), Word(names.dictionary),
             Word(Text(Argument, names)), Datum(Str(q)), Word(Text(close, names))]
  {
    DictionaryText(names);
    var a: seq<Piece<Value>> := [Lit(open), Lit(Dictionary), Lit(between)];
    var b: seq<Piece<Value>> := [Lit(Dictionary), Lit(Argument), Hole(Str(q)), Lit(close)];
    TokensConcat(a, b, names);
    assert a + b == [Lit(open), Lit(Dictionary), Lit(between), Lit(Dictionary), Lit(Argument), Hole(Str(q)), Lit(close)];
  }

  lemma DictionaryText(names: Names)
    ensures Text(Dictionary, names) == names.dictionary
  {
  }

  function TextTokens(q: string, names: Names): seq<Token> {
    [Word("to_tsvector('"), Word(names.dictionary), Word(QUERIED), Word(names.dictionary), Word("', "), Datum(Str(q)),
     Word(")")]
  }

  lemma TextWords(q: string, names: Names)
    ensures Tokens(ClausePieces(TextMatches(Str(q))), names) == TextTokens(q, names)
  {
    DictionaryWords(Vector, Matches, q, Close, names);
    VectorText(names);
    MatchesText(names);
    ArgumentText(names);
  }

  lemma TextExtent(q: string, names: Names)
    ensures forall rest :: Extent(TextTokens(q, names) + rest) == 7
  {
    CallsDiffer();
    forall rest ensures Extent(TextTokens(q, names) + rest) == 7 {
      assert (TextTokens(q, names) + rest)[0] == Word("to_tsvector('");
    }
  }

  lemma SevenReadAs(matches: (string, string) -> bool, names: Names, t: seq<Token>, row: Row, c: Condition)
    requires |t| == 7 && forall rest :: Extent(t + rest) == 7
    requires Holds(matches, names, t, row) == Some(Satisfies(matches, row, c))
    ensures ReadsAs(matches, names, t, row, c)
  {
  }

  lemma SevenWords(matches: (string, string) -> bool, names: Names, t: seq<Token>, row: Row)
    requires |t| == 7
    ensures Holds(matches, names, t, row) == TextHolds(matches, names, t, row)
  {
  }

  lemma TextTokensHold(matches: (string, string) -> bool, names: Names, row: Row, q: string)
    ensures |TextTokens(q, names)| == 7
    ensures Holds(matches, names, TextTokens(q, names), row) == Some(matches(row.text, q))
  {
    SevenWords(matches, names, TextTokens(q, names), row);
  }

  lemma TextReads(matches: (string, string) -> bool, names: Names, row: Row, q: string)
    ensures ReadsAs(matches, names, Tokens(ClausePieces(TextMatches(Str(q))), names), row, TextMatches(q))
  {
    TextWords(q, names);
    TextTokensHold(matches, names, row, q);
    TextExtent(q, names);
    SevenReadAs(matches, names, Tokens(ClausePieces(TextMatches(Str(q))), names), row, TextMatches(q));
  }

  // ---- Attributes ------------------------------------------------------------------------------------------

  lemma ListGrows(list: seq<Token>, choices: seq<string>, v: string)
    requires IsList(list) && forall x :: Datum(Str(x)) in list <==> x in choices
    ensures var longer := list + [Word(", "), Datum(Str(v))];
            IsList(longer) && forall x :: Datum(Str(x)) in longer <==> x in choices + [v]
  {
  }

  lemma LastChoice(choices: seq<string>, names: Names)
    requires |choices| > 1
    ensures var n := |choices| - 1;
            Tokens(ChoicePieces(Strings(choices)), names)
              == Tokens(ChoicePieces(Strings(choices[..n])), names) + [Word(", "), Datum(Str(choices[n]))]
  {
    var n := |choices| - 1;
    assert Strings(choices)[..n] == Strings(choices[..n]);
    TokensConcat(ChoicePieces(Strings(choices[..n])), [Lit(Comma), Hole(Str(choices[n]))], names);
    TokenPair(Lit(Comma), Hole(Str(choices[n])), names);
    CommaText(names);
  }

  /** The listed texts are the choices. */
  lemma {:induction false} ChoicesAreListed(choices: seq<string>, names: Names)
    requires choices != []
    ensures var list := Tokens(ChoicePieces(Strings(choices)), names);
            IsList(list) && forall v :: Datum(Str(v)) in list <==> v in choices
  {
    var n := |choices| - 1;
    var pieces := ChoicePieces(Strings(choices));
    if n == 0 {
      assert pieces == [Hole(Str(choices[0]))];
      assert Tokens(pieces, names) == [Datum(Str(choices[0]))];
    } else {
      ChoicesAreListed(choices[..n], names);
      LastChoice(choices, names);
      ListGrows(Tokens(ChoicePieces(Strings(choices[..n])), names), choices[..n], choices[n]);
      assert choices == choices[..n] + [choices[n]];
    }
  }


  /** The words of an attribute clause, around its list. */
  function AttributeTokens(name: string, list: seq<Token>): seq<Token> {
    var key := Datum(Str(name));
    [Word(ELEMENTS), key, Word(IF_ARRAY), key, Word(OR_SINGLE), key, Word(AMONG)] + list + [Word("))")]
  }

  lemma CloseWords(names: Names)
    ensures Tokens([Lit(CloseExists)], names) == [Word("))")]
  {
    CloseText(names);
  }

  lemma AttributeHeadWords(name: string, names: Names)
    ensures var key := Datum(Str(name));
            Tokens(AttributeHead(Str(name)), names)
              == [Word(ELEMENTS), key, Word(IF_ARRAY), key, Word(OR_SINGLE), key, Word(AMONG)]
  {
    ElementsTexts(names);
    ArrayText(names);
    SingleText(names);
    AmongText(names);
  }

  lemma AttributeWords(name: string, choices: seq<string>, names: Names)
    ensures Tokens(ClausePieces(HasAttribute(Str(name), Strings(choices))), names)
         == AttributeTokens(name, Tokens(ChoicePieces(Strings(choices)), names))
  {
    var head, list, close := AttributeHead(Str(name)), ChoicePieces(Strings(choices)), [Lit(CloseExists)];
    TokensConcat(head + list, close, names);
    TokensConcat(head, list, names);
    AttributeHeadWords(name, names);
    CloseWords(names);
  }

  lemma {:induction false} ClosesAt(t: seq<Token>, i: nat, n: nat)
    requires i <= n < |t| && t[n] == Word("))") && forall j :: i <= j < n ==> t[j] != Word("))")
    ensures PastClose(t, i) == n + 1
    decreases n - i
  {
    if i < n {
      ClosesAt(t, i + 1, n);
    }
  }

  lemma AttributeExtent(name: string, list: seq<Token>, rest: seq<Token>)
    requires IsList(list)
    ensures Extent(AttributeTokens(name, list) + rest) == |AttributeTokens(name, list)|
  {
    var t := AttributeTokens(name, list);
    var n := |t| - 1;
    CallsDiffer();
    forall j | 7 <= j < n ensures (t + rest)[j] != Word("))") {
      assert t[j] == list[j - 7];
    }
    assert (t + rest)[0] == Word(ELEMENTS) && (t + rest)[n] == Word("))");
    ClosesAt(t + rest, 7, n);
  }

  lemma AttributeMeans(name: string, list: seq<Token>, choices: seq<string>, row: Row)
    requires IsList(list) && forall v :: Datum(Str(v)) in list <==> v in choices
    ensures AttributeHolds(AttributeTokens(name, list), row) == Some(HasOneOf(row, name, choices))
  {
    var t := AttributeTokens(name, list);
    assert t[7..|t| - 1] == list;
  }

  lemma ManyWords(matches: (string, string) -> bool, names: Names, t: seq<Token>, row: Row)
    requires |t| >= 9
    ensures Holds(matches, names, t, row) == AttributeHolds(t, row)
  {
  }

  lemma AttributeAsked(matches: (string, string) -> bool, row: Row, name: string, choices: seq<string>)
    ensures Satisfies(matches, row, HasAttribute(name, choices)) <==> HasOneOf(row, name, choices)
  {
  }

  lemma AttributeReads(matches: (string, string) -> bool, names: Names, row: Row, name: string, choices: seq<string>)
    requires choices != []
    ensures ReadsAs(matches, names, Tokens(ClausePieces(HasAttribute(Str(name), Strings(choices))), names), row,
                    HasAttribute(name, choices))
  {
    var list := Tokens(ChoicePieces(Strings(choices)), names);
    var t := AttributeTokens(name, list);
    AttributeWords(name, choices, names);
    ChoicesAreListed(choices, names);
    AttributeMeans(name, list, choices, row);
    ManyWords(matches, names, t, row);
    AttributeAsked(matches, row, name, choices);
    forall rest ensures Extent(t + rest) == |t| {
      AttributeExtent(name, list, rest);
    }
  }

  // ---- All clauses -------------------------------------------------------------------------------------------

  /** A condition a query can ask for: a list of choices is never empty. */
  predicate Askable(c: Condition) { c.HasAttribute? ==> c.choices != [] }

  ghost predicate AllAskable(conditions: seq<Condition>) {
    forall c :: c in conditions ==> Askable(c)
  }

  lemma ClauseReads(matches: (string, string) -> bool, names: Names, row: Row, c: Condition)
    requires Askable(c)
    ensures ReadsAs(matches, names, Tokens(ClausePieces(InValues(c)), names), row, c)
  {
    match c
    case TextMatches(q) => TextReads(matches, names, row, q);
    case ColumnIs(column, v) =>
      match column {
        case Kind => KindReads(matches, names, row, v);
        case Organization => OrganizationReads(matches, names, row, v);
        case Status => StatusReads(matches, names, row, v);
        case Category => CategoryReads(matches, names, row, v);
        case Brand => BrandReads(matches, names, row, v);
      }
    case Never => NeverReads(matches, names, row);
    case HasAttribute(name, choices) => AttributeReads(matches, names, row, name, choices);
  }

  lemma {:induction false} ConjunctionFromTheFront(c: Clause<Value>, clauses: seq<Clause<Value>>)
    requires clauses != []
    ensures Conjunction([c] + clauses) == ClausePieces(c) + [Lit(And)] + Conjunction(clauses)
    decreases |clauses|
  {
    var n := |clauses| - 1;
    var all := [c] + clauses;
    assert all[..|all| - 1] == [c] + clauses[..n];
    if n > 0 {
      ConjunctionFromTheFront(c, clauses[..n]);
    } else {
      assert clauses[..n] == [] && all[..1] == [c];
      assert Conjunction([c]) == ClausePieces(c);
    }
  }

  lemma FirstThenRest(matches: (string, string) -> bool, names: Names, row: Row, first: seq<Token>, rest: seq<Token>,
                      c: Condition)
    requires ReadsAs(matches, names, first, row, c) && rest != []
    ensures var all := first + [Word(" AND ")] + rest;
            var others := AllHold(matches, names, rest, row);
            others.Some? ==> AllHold(matches, names, all, row) == Some(Satisfies(matches, row, c) && others.value)
  {
    var all := first + [Word(" AND ")] + rest;
    assert all == first + ([Word(" AND ")] + rest);
    assert Extent(all) == |first| && all[..|first|] == first && all[|first|] == Word(" AND ");
    assert all[|first| + 1..] == rest;
  }

  lemma OnlyOne(matches: (string, string) -> bool, names: Names, row: Row, first: seq<Token>, c: Condition)
    requires ReadsAs(matches, names, first, row, c)
    ensures AllHold(matches, names, first, row) == Some(Satisfies(matches, row, c))
  {
    assert first + [] == first;
    assert Extent(first + []) == |first| && first[..|first|] == first;
  }

  lemma AndWords(first: seq<Piece<Value>>, rest: seq<Piece<Value>>, names: Names)
    ensures Tokens(first + [Lit(And)] + rest, names) == Tokens(first, names) + [Word(" AND ")] + Tokens(rest, names)
  {
    TokensConcat(first + [Lit(And)], rest, names);
    TokensConcat(first, [Lit(And)], names);
    JoiningTexts(names);
    assert Tokens([Lit(And)], names) == [Word(" AND ")];
  }

  lemma ConjunctionWords(conditions: seq<Condition>, names: Names)
    requires conditions != []
    ensures var first := Tokens(ClausePieces(InValues(conditions[0])), names);
            Tokens(Conjunction(AllInValues(conditions)), names)
              == (if conditions[1..] == [] then first
                  else first + [Word(" AND ")] + Tokens(Conjunction(AllInValues(conditions[1..])), names))
  {
    var c, rest := InValues(conditions[0]), conditions[1..];
    if rest == [] {
      assert AllInValues(conditions) == [c];
    } else {
      assert AllInValues(conditions) == [c] + AllInValues(rest);
      ConjunctionFromTheFront(c, AllInValues(rest));
      AndWords(ClausePieces(c), Conjunction(AllInValues(rest)), names);
    }
  }

  lemma {:induction false} ConjunctionReads(matches: (string, string) -> bool, names: Names, row: Row,
                                            conditions: seq<Condition>)
    requires conditions != [] && AllAskable(conditions)
    ensures Tokens(Conjunction(AllInValues(conditions)), names) != []
    ensures AllHold(matches, names, Tokens(Conjunction(AllInValues(conditions)), names), row)
         == Some(SatisfiesAll(matches, conditions, row))
    decreases |conditions|
  {
    var c, rest := conditions[0], conditions[1..];
    var first := Tokens(ClausePieces(InValues(c)), names);
    ClauseReads(matches, names, row, c);
    ConjunctionWords(conditions, names);
    if rest == [] {
      OnlyOne(matches, names, row, first, c);
    } else {
      ConjunctionReads(matches, names, row, rest);
      FirstThenRest(matches, names, row, first, Tokens(Conjunction(AllInValues(rest)), names), c);
    }
  }

  lemma OneColumnMore(conditions: seq<Condition>, column: Column, filter: Option<string>)
    requires AllAskable(conditions)
    ensures AllAskable(conditions + ColumnCondition(column, filter))
  {
  }

  lemma ConditionsAreAskable(q: Query)
    ensures AllAskable(Conditions(q))
  {
    var a := When(!Blank(q.text), TextMatches(q.text));
    OneColumnMore(a, Kind, q.kind);
    var b := a + ColumnCondition(Kind, q.kind);
    OneColumnMore(b, Organization, q.organization);
    var c := b + ColumnCondition(Organization, q.organization);
    OneColumnMore(c, Status, q.status);
    var d := c + ColumnCondition(Status, q.status);
    OneColumnMore(d, Category, q.category);
    OneColumnMore(d + ColumnCondition(Category, q.category), Brand, q.brand);
    assert AllAskable(PlainConditions(q)) && AllAskable(AttributeConditions(q.attributes));
  }

  lemma WhereWords(matches: (string, string) -> bool, names: Names, pieces: seq<Piece<Value>>, row: Row)
    ensures Chosen(matches, names, Tokens([Lit(Where)] + pieces, names), row)
         == AllHold(matches, names, Tokens(pieces, names), row)
  {
    TokensConcat([Lit(Where)], pieces, names);
    JoiningTexts(names);
    assert Tokens([Lit(Where)], names) == [Word("WHERE ")];
    var t := [Word("WHERE ")] + Tokens(pieces, names);
    assert t[1..] == Tokens(pieces, names);
  }

  /** Read as SQL, the WHERE of a query chooses exactly the rows that were asked for. */
  lemma WhereChoosesTheRequest(matches: (string, string) -> bool, names: Names, q: Query, row: Row)
    ensures Chosen(matches, names, Tokens(WherePieces(AllInValues(Conditions(q))), names), row)
         == Some(Requested(matches, q, row))
  {
    ConditionsMeanTheRequest(matches, q, row);
    if Conditions(q) != [] {
      ConditionsAreAskable(q);
      ConjunctionReads(matches, names, row, Conditions(q));
      WhereWords(matches, names, Conjunction(AllInValues(Conditions(q))), row);
    }
  }

  // ---- The whole statements ----------------------------------------------------------------------------------

  const COLUMNS := ("SELECT id, " + "type, slug, " + "title, " + "description, ")
                   + ("status, " + "categories, " + "brands, text, " + "attributes, " + "payload")
  const RANK := "ts_rank(" + "to_tsvector('"
  const RANKED := "', text), " + "plainto_tsquery('"
  const ORDER := "ORDER BY " + "score DESC, " + "title ASC"
  const TOTAL := "SELECT " + "COUNT(*)::int " + "AS total " + "FROM "
  const NEW_LINE := "\n           "

  /** A row's score: its rank for the text that is looked for, or zero. */
  function ScoreTokens(text: Option<string>, names: Names): seq<Token> {
    match text
    case None => [Word("0")]
    case Some(looked) =>
      [Word(RANK), Word(names.dictionary), Word(RANKED), Word(names.dictionary), Word("', "), Datum(Str(looked)),
       Word("))")]
  }

  function SelectTokens(score: Option<string>, names: Names): seq<Token> {
    [Word(COLUMNS), Word(", ")] + ScoreTokens(score, names)
    + [Word(" AS score"), Word(NEW_LINE), Word("FROM "), Word(names.table), Word(NEW_LINE)]
  }

  /** Best first, so many of them, after so many. */
  function PageTokens(limit: int, offset: int): seq<Token> {
    [Word(NEW_LINE), Word(ORDER), Word(NEW_LINE), Word("LIMIT "), Datum(Num(limit)), Word(NEW_LINE), Word("OFFSET "),
     Datum(Num(offset))]
  }

  lemma ColumnsWord(names: Names)
    ensures Text(Columns, names) == COLUMNS
  {
  }

  lemma RankWord(names: Names)
    ensures Text(Rank, names) == RANK
  {
  }

  lemma RankedWord(names: Names)
    ensures Text(RankQuery, names) == RANKED
  {
  }

  lemma CloseRankWord(names: Names)
    ensures Text(CloseRank, names) == "))" && Text(NoScore, names) == "0"
  {
  }

  lemma AsScoreWord(names: Names)
    ensures Text(AsScore, names) == " AS score"
  {
  }

  lemma FromWord(names: Names)
    ensures Text(From, names) == "FROM "
  {
  }

  lemma BreakWord(names: Names)
    ensures Text(Break, names) == NEW_LINE
  {
  }

  lemma SpaceWord(names: Names)
    ensures Text(Space, names) == " "
  {
  }

  lemma OrderWord(names: Names)
    ensures Text(OrderBy, names) == ORDER
  {
  }

  lemma LimitWord(names: Names)
    ensures Text(Limit, names) == "LIMIT "
  {
  }

  lemma OffsetWord(names: Names)
    ensures Text(Offset, names) == "OFFSET "
  {
  }

  lemma TotalWord(names: Names)
    ensures Text(Total, names) == TOTAL
  {
  }

  /** What is looked for, if anything. */
  function Looked(q: Query): Option<string> {
    if Blank(q.text) then None else Some(q.text)
  }

  lemma ScoreWords(q: Query, names: Names)
    ensures Tokens(ScorePieces(ScoreValue(q)), names) == ScoreTokens(Looked(q), names)
  {
    if Blank(q.text) {
      CloseRankWord(names);
    } else {
      RankWords(q.text, names);
    }
  }

  lemma RankWords(text: string, names: Names)
    ensures Tokens(ScorePieces(Some(Str(text))), names) == ScoreTokens(Some(text), names)
  {
    DictionaryWords(Rank, RankQuery, text, CloseRank, names);
    RankWord(names);
    RankedWord(names);
    ArgumentText(names);
    CloseRankWord(names);
  }

  lemma SelectWords(q: Query, names: Names)
    ensures Tokens(SearchHead(ScoreValue(q)), names) == SelectTokens(Looked(q), names)
  {
    var columns: seq<Piece<Value>> := [Lit(Columns), Lit(Comma)];
    var from: seq<Piece<Value>> := [Lit(AsScore), Lit(Break), Lit(From), Lit(Table), Lit(Break)];
    TokensConcat(columns + ScorePieces(ScoreValue(q)), from, names);
    TokensConcat(columns, ScorePieces(ScoreValue(q)), names);
    ScoreWords(q, names);
    FromWords(names);
    ColumnsWord(names);
    CommaText(names);
    assert Tokens(columns, names) == [Word(COLUMNS), Word(", ")];
  }

  lemma FromWords(names: Names)
    ensures Tokens([Lit(AsScore), Lit(Break), Lit(From), Lit(Table), Lit(Break)], names)
         == [Word(" AS score"), Word(NEW_LINE), Word("FROM "), Word(names.table), Word(NEW_LINE)]
  {
    AsScoreWord(names);
    BreakWord(names);
    FromWord(names);
  }

  lemma PageWords(limit: int, offset: int, names: Names)
    ensures Tokens(SearchTail(Num(limit), Num(offset)), names) == PageTokens(limit, offset)
  {
    BreakWord(names);
    OrderWord(names);
    LimitWord(names);
    OffsetWord(names);
  }

  function WhereTokens(q: Query, names: Names): seq<Token> {
    Tokens(WherePieces(AllInValues(Conditions(q))), names)
  }

  /** Read as SQL, the words choose exactly the rows that were asked for, whatever full-text search finds. */
  ghost predicate ChooseTheAsked(where: seq<Token>, q: Query, names: Names) {
    forall matches: (string, string) -> bool, row: Row ::
      Chosen(matches, names, where, row) == Some(Requested(matches, q, row))
  }

  lemma WhereChoosesTheAsked(q: Query, names: Names)
    ensures ChooseTheAsked(WhereTokens(q, names), q, names)
  {
    forall matches: (string, string) -> bool, row: Row
      ensures Chosen(matches, names, WhereTokens(q, names), row) == Some(Requested(matches, q, row))
    {
      WhereChoosesTheRequest(matches, names, q, row);
    }
  }

  lemma SearchWords(q: Query, size: int, skipped: int, names: Names)
    ensures Tokens(SearchPieces(ScoreValue(q), AllInValues(Conditions(q)), Num(size), Num(skipped)), names)
         == SelectTokens(Looked(q), names) + WhereTokens(q, names) + PageTokens(size, skipped)
  {
    var pieces := WherePieces(AllInValues(Conditions(q)));
    TokensConcat(SearchHead(ScoreValue(q)) + pieces, SearchTail(Num(size), Num(skipped)), names);
    TokensConcat(SearchHead(ScoreValue(q)), pieces, names);
    SelectWords(q, names);
    PageWords(size, skipped, names);
  }

  /** Read as SQL, the search statement ranks by the text that is looked for, chooses exactly the rows that were asked
      for, and takes the wanted page: at most a hundred rows and twenty unless told otherwise, after those of the
      pages before. */
  lemma SearchReadsAsAsked(q: Query, page: Option<int>, limit: Option<int>, names: Names)
    ensures ChooseTheAsked(WhereTokens(q, names), q, names)
    ensures Tokens(SearchMeaning(q, page, limit), names)
         == SelectTokens(Looked(q), names) + WhereTokens(q, names) + PageTokens(Size(limit), Skipped(page, limit))
  {
    WhereChoosesTheAsked(q, names);
    PageIsAsked(page, limit);
    SearchWords(q, Size(limit), Skipped(page, limit), names);
  }

  function Size(limit: Option<int>): int {
    if limit.None? then 20 else if limit.value < 1 then 1 else if limit.value > 100 then 100 else limit.value
  }

  /** The rows of the pages before. */
  function Skipped(page: Option<int>, limit: Option<int>): int {
    if page.Some? && page.value > 1 then (page.value - 1) * Size(limit) else 0
  }

  lemma PageIsAsked(page: Option<int>, limit: Option<int>)
    ensures LimitOf(limit) == Size(limit) && (PageOf(page) - 1) * LimitOf(limit) == Skipped(page, limit)
  {
  }

  /** The other two count, and list for the facets, exactly the rows that were asked for. */
  lemma CountAndFacetsReadAsAsked(q: Query, names: Names)
    ensures ChooseTheAsked(WhereTokens(q, names), q, names)
    ensures Tokens(CountPieces(AllInValues(Conditions(q))), names) == CountTokens(names) + WhereTokens(q, names)
    ensures Tokens(FacetPieces(AllInValues(Conditions(q))), names) == FacetTokens(names) + WhereTokens(q, names)
  {
    WhereChoosesTheAsked(q, names);
    TokensConcat(Fixed(COUNT_HEAD), WherePieces(AllInValues(Conditions(q))), names);
    TokensConcat(Fixed(FACET_HEAD), WherePieces(AllInValues(Conditions(q))), names);
    CountWords(names);
    FacetWords(names);
  }

  function CountTokens(names: Names): seq<Token> { [Word(TOTAL), Word(names.table), Word(" ")] }

  function FacetTokens(names: Names): seq<Token> {
    [Word(COLUMNS), Word(NEW_LINE), Word("FROM "), Word(names.table), Word(NEW_LINE)]
  }

  lemma CountWords(names: Names)
    ensures Tokens(Fixed(COUNT_HEAD), names) == CountTokens(names)
  {
    FixedWords(COUNT_HEAD, names);
    TotalWord(names);
    SpaceWord(names);
  }

  lemma FacetWords(names: Names)
    ensures Tokens(Fixed(FACET_HEAD), names) == FacetTokens(names)
  {
    FiveWords(Columns, Break, From, Table, Break, names);
    FacetTexts(names);
  }

  lemma FacetTexts(names: Names)
    ensures Text(Columns, names) == COLUMNS && Text(Break, names) == NEW_LINE && Text(From, names) == "FROM "
    ensures Text(Table, names) == names.table
  {
    ColumnsWord(names);
    BreakWord(names);
    FromWord(names);
  }

  lemma FiveWords(a: Fragment, b: Fragment, c: Fragment, d: Fragment, e: Fragment, names: Names)
    ensures Tokens(Fixed([a, b, c, d, e]), names)
         == [Word(Text(a, names)), Word(Text(b, names)), Word(Text(c, names)), Word(Text(d, names)), Word(Text(e, names))]
  {
    TokenPair(Lit(a), Lit(b), names);
    TokenPair(Lit(c), Lit(d), names);
    TokensConcat([Lit(a), Lit(b)], [Lit(c), Lit(d)], names);
    TokensConcat([Lit(a), Lit(b)] + [Lit(c), Lit(d)], [Lit(e)], names);
    assert Tokens([Lit(e)], names) == [TokenOf(Lit(e), names)];
    assert Fixed<Value>([a, b, c, d, e]) == [Lit(a), Lit(b)] + [Lit(c), Lit(d)] + [Lit(e)];
  }

  lemma FixedWords(fragments: seq<Fragment>, names: Names)
    ensures |Tokens(Fixed(fragments), names)| == |fragments|
    ensures forall i :: 0 <= i < |fragments| ==> Tokens(Fixed(fragments), names)[i] == Word(Text(fragments[i], names))
  {
  }

  /** The words, one after the other, are the statement meant. */
  lemma {:induction false} TokensSpeak(pieces: seq<Piece<Value>>, names: Names)
    ensures Read(pieces, Texts(names)) == Spoken(Tokens(pieces, names))
  {
    if pieces != [] {
      TokensSpeak(pieces[1..], names);
      assert Tokens(pieces, names)[1..] == Tokens(pieces[1..], names);
    }
  }
}
