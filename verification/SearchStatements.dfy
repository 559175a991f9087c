/** The three statements of `search`, and what they mean once their placeholders are filled in. */
module SearchStatements {
  import opened Wrappers
  import opened JsText
  import opened Numbers
  import opened SearchFilters
  import opened PlaceholderSplit

  datatype Names = Names(dictionary: string, table: string)

  /** The fixed parts of the statements. */
  datatype Fragment =
    | Dictionary | Table | Break | Space | Comma
    | Columns | AsScore | From | OrderBy | Limit | Offset | Total
    | Rank | RankQuery | CloseRank | NoScore
    | Where | And
    | Vector | Matches | Argument | Close
    | KindEquals | OrganizationEquals | StatusEquals | AmongCategories | AmongBrands
    | False | Exists | IsArray | OrSingle | AmongElements | CloseExists

  /** Text in which nothing can be taken for a placeholder, nor for more digits of one before it. */
  type PlainText = t: string | '$' !in t && t != "" && !IsDigit(t[0]) witness " "

  // Long texts are put together from whole words: the verifier reads a literal character by character, and a proof
  // about a long one costs it dearly. For the same reason the fragments are spelt in groups.

  function StatementText(f: Fragment): PlainText {
    match f
    case Break => "\n           "
    case Space => " "
    case Comma => ", "
    case From => "FROM "
    case OrderBy => OrderText()
    case Limit => "LIMIT "
    case Offset => "OFFSET "
    case Total => "SELECT " + "COUNT(*)::int " + "AS total " + "FROM "
    case _ => ColumnsText()
  }

  function ScoreText(f: Fragment): PlainText {
    match f
    case Rank => "ts_rank(" + "to_tsvector('"
    case RankQuery => "', text), " + "plainto_tsquery('"
    case CloseRank => "))"
    case _ => " AS score"
  }

  function OrderText(): PlainText { "ORDER BY " + "score DESC, " + "title ASC" }

  function ColumnsText(): PlainText {
    NameColumns() + DetailColumns()
  }

  function NameColumns(): PlainText { "SELECT id, " + "type, slug, " + "title, " + "description, " }

  function DetailColumns(): PlainText {
    "status, " + "categories, " + "brands, text, " + "attributes, " + "payload"
  }

  function ClauseText(f: Fragment): PlainText {
    match f
    case Where => "WHERE "
    case And => " AND "
    case Vector => "to_tsvector('"
    case Matches => "', text) @@ " + "plainto_tsquery('"
    case Argument => "', "
    case Close => ")"
    case KindEquals => "type = "
    case OrganizationEquals => "payload ->> " + "'organizationId'" + " = "
    case StatusEquals => "status = "
    case AmongCategories => " = ANY(" + "categories)"
    case AmongBrands => " = ANY(brands)"
    case _ => "FALSE"
  }

  function AttributeText(f: Fragment): PlainText {
    match f
    case IsArray => ") = 'array' " + "THEN " + "attributes" + " -> "
    case OrSingle => " ELSE " + "jsonb_build_array(" + "attributes" + " ->> "
    case AmongElements => AmongText()
    case CloseExists => "))"
    case _ => ExistsText()
  }

  function ExistsText(): PlainText {
    ElementsText() + CaseText()
  }

  function AmongText(): PlainText { ") END) AS " + "attribute_value " + "WHERE " + "attribute_value" + " IN (" }

  function ElementsText(): PlainText { "EXISTS (" + "SELECT 1 " + "FROM " + "jsonb_array_elements_text(" }

  function CaseText(): PlainText {
    "CASE WHEN " + "jsonb_typeof(" + "attributes" + " -> "
  }

  predicate InAttribute(f: Fragment) {
    f.Exists? || f.IsArray? || f.OrSingle? || f.AmongElements? || f.CloseExists?
  }

  predicate InClause(f: Fragment) {
    || f.Where? || f.And? || f.Vector? || f.Matches? || f.Argument? || f.Close? || f.KindEquals?
    || f.OrganizationEquals? || f.StatusEquals? || f.AmongCategories? || f.AmongBrands? || f.False?
  }

  predicate InScore(f: Fragment) {
    f.Rank? || f.RankQuery? || f.CloseRank? || f.AsScore?
  }

  /** How a fragment is spelt. */
  function Text(f: Fragment, names: Names): string {
    if f == Dictionary then names.dictionary
    else if f == Table then names.table
    else if f == NoScore then "0"
    else if InAttribute(f) then AttributeText(f)
    else if InClause(f) then ClauseText(f)
    else if InScore(f) then ScoreText(f)
    else StatementText(f)
  }

  function Texts(names: Names): Fragment -> string {
    f => Text(f, names)
  }

  /** Fixed text, or a slot: `$k` for a placeholder number, the value itself once filled in. */
  datatype Piece<Slot> = Lit(fragment: Fragment) | Hole(slot: Slot)

  function ChoicePieces<Slot>(choices: seq<Slot>): seq<Piece<Slot>> {
    if |choices| == 0 then []
    else if |choices| == 1 then [Hole(choices[0])]
    else ChoicePieces(choices[..|choices| - 1]) + [Lit(Comma), Hole(choices[|choices| - 1])]
  }

  function AttributeHead<Slot>(name: Slot): seq<Piece<Slot>> {
    [Lit(Exists), Hole(name), Lit(IsArray), Hole(name), Lit(OrSingle), Hole(name), Lit(AmongElements)]
  }

  function ClausePieces<Slot>(c: Clause<Slot>): seq<Piece<Slot>> {
    match c
    case TextMatches(q) =>
      [Lit(Vector), Lit(Dictionary), Lit(Matches), Lit(Dictionary), Lit(Argument), Hole(q), Lit(Close)]
    case ColumnIs(Kind, v) => [Lit(KindEquals), Hole(v)]
    case ColumnIs(Organization, v) => [Lit(OrganizationEquals), Hole(v)]
    case ColumnIs(Status, v) => [Lit(StatusEquals), Hole(v)]
    case ColumnIs(Category, v) => [Hole(v), Lit(AmongCategories)]
    case ColumnIs(Brand, v) => [Hole(v), Lit(AmongBrands)]
    case Never => [Lit(False)]
    case HasAttribute(name, choices) =>
      AttributeHead(name) + ChoicePieces(choices) + [Lit(CloseExists)]
  }

  /** `clauses.join(" AND ")`. */
  function Conjunction<Slot>(clauses: seq<Clause<Slot>>): seq<Piece<Slot>> {
    if |clauses| == 0 then []
    else if |clauses| == 1 then ClausePieces(clauses[0])
    else Conjunction(clauses[..|clauses| - 1]) + [Lit(And)] + ClausePieces(clauses[|clauses| - 1])
  }

  function WherePieces<Slot>(clauses: seq<Clause<Slot>>): seq<Piece<Slot>> {
    if clauses == [] then [] else [Lit(Where)] + Conjunction(clauses)
  }

  /** The score of a row: its rank for the query text in the slot, or zero. */
  function ScorePieces<Slot>(query: Option<Slot>): seq<Piece<Slot>> {
    match query
    case Some(q) => [Lit(Rank), Lit(Dictionary), Lit(RankQuery), Lit(Dictionary), Lit(Argument), Hole(q), Lit(CloseRank)]
    case None => [Lit(NoScore)]
  }

  function SearchHead<Slot>(query: Option<Slot>): seq<Piece<Slot>> {
    [Lit(Columns), Lit(Comma)] + ScorePieces(query) + [Lit(AsScore), Lit(Break), Lit(From), Lit(Table), Lit(Break)]
  }

  function SearchTail<Slot>(limit: Slot, offset: Slot): seq<Piece<Slot>> {
    [Lit(Break), Lit(OrderBy), Lit(Break), Lit(Limit), Hole(limit), Lit(Break), Lit(Offset), Hole(offset)]
  }

  function SearchPieces<Slot>(query: Option<Slot>, clauses: seq<Clause<Slot>>, limit: Slot, offset: Slot)
    : seq<Piece<Slot>>
  {
    SearchHead(query) + WherePieces(clauses) + SearchTail(limit, offset)
  }

  /** Fragments in a row. */
  function Fixed<Slot>(fragments: seq<Fragment>): seq<Piece<Slot>> {
    seq(|fragments|, i requires 0 <= i < |fragments| => Lit(fragments[i]))
  }

  type Heading = s: seq<Fragment> | Dictionary !in s

  const COUNT_HEAD: Heading := [Total, Table, Space]
  const FACET_HEAD: Heading := [Columns, Break, From, Table, Break]

  function CountPieces<Slot>(clauses: seq<Clause<Slot>>): seq<Piece<Slot>> { Fixed(COUNT_HEAD) + WherePieces(clauses) }
  function FacetPieces<Slot>(clauses: seq<Clause<Slot>>): seq<Piece<Slot>> { Fixed(FACET_HEAD) + WherePieces(clauses) }

  function PieceText(p: Piece<nat>, text: Fragment -> string): string {
    match p
    case Lit(f) => text(f)
    case Hole(k) => "$" + Decimal(k)
  }

  function PieceRead<V>(p: Piece<V>, text: Fragment -> string): seq<Sym<V>> {
    match p
    case Lit(f) => Chars(text(f))
    case Hole(v) => [Val(v)]
  }

  /** The text sent: slots spelt `$k`. */
  function Spell(pieces: seq<Piece<nat>>, text: Fragment -> string): string {
    if pieces == [] then "" else PieceText(pieces[0], text) + Spell(pieces[1..], text)
  }

  /** The statement meant: slots hold their values. */
  function Read<V>(pieces: seq<Piece<V>>, text: Fragment -> string): seq<Sym<V>> {
    if pieces == [] then [] else PieceRead(pieces[0], text) + Read(pieces[1..], text)
  }

  ghost predicate PieceDenotes<V>(a: Piece<nat>, b: Piece<V>, params: seq<V>) {
    match a
    case Lit(f) => b == Lit(f)
    case Hole(k) => b.Hole? && 1 <= k <= |params| && params[k - 1] == b.slot
  }

  /** Slot by slot, the number names the value. */
  ghost predicate Denotes<V>(a: seq<Piece<nat>>, b: seq<Piece<V>>, params: seq<V>) {
    |a| == |b| && forall i :: 0 <= i < |a| ==> PieceDenotes(a[i], b[i], params)
  }

  /** Text that cannot be read as more digits of a placeholder before it. */
  predicate Separates<Slot>(p: Piece<Slot>) {
    p.Lit? && p.fragment !in {Dictionary, Table, NoScore}
  }

  /** A piece that a digit right after it could change the reading of: a placeholder, or the dictionary's name. */
  predicate Open<Slot>(p: Piece<Slot>) {
    p.Hole? || p.fragment == Dictionary
  }

  ghost predicate Separated<Slot(!new)>(pieces: seq<Piece<Slot>>) {
    forall i, j :: 0 <= i < j < |pieces| && j == i + 1 && Open(pieces[i]) ==> Separates(pieces[j])
  }

  /** `safeIdentifier`: the adapter is not built with any other table name. */
  predicate SafeIdentifier(name: string) {
    && name != "" && !IsDigit(name[0])
    && forall i :: 0 <= i < |name| ==>
         'a' <= name[i] <= 'z' || 'A' <= name[i] <= 'Z' || IsDigit(name[i]) || name[i] == '_'
  }

  /** Nothing in the name reads as a placeholder. */
  ghost predicate Clean(name: string) {
    NoPlaceholder(name, 0, |name|)
  }

  lemma FixedTextIsPlain(f: Fragment, names: Names)
    requires SafeIdentifier(names.table) && f != Dictionary
    ensures '$' !in Text(f, names)
  {
    assert '$' !in names.table;
  }

  lemma SeparatorsOpenWithoutDigit(f: Fragment, names: Names)
    requires Separates<nat>(Lit(f))
    ensures Text(f, names) != "" && !IsDigit(Text(f, names)[0])
  {
  }

  /** What the proofs need of the fixed texts. */
  ghost predicate Plain(text: Fragment -> string) {
    && (forall f :: f != Dictionary ==> '$' !in text(f))
    && (forall f :: Separates<nat>(Lit(f)) ==> text(f) != "" && !IsDigit(text(f)[0]))
  }

  lemma TextsArePlain(names: Names)
    requires SafeIdentifier(names.table)
    ensures Plain(Texts(names))
  {
    forall f | f != Dictionary ensures '$' !in Text(f, names) {
      FixedTextIsPlain(f, names);
    }
    forall f | Separates<nat>(Lit(f)) ensures Text(f, names) != "" && !IsDigit(Text(f, names)[0]) {
      SeparatorsOpenWithoutDigit(f, names);
    }
  }

  /** `s` stands in `t` from `at` on. */
  ghost predicate HasAt(t: string, at: nat, s: string) {
    at + |s| <= |t| && forall i :: 0 <= i < |s| ==> t[at + i] == s[i]
  }

  lemma HasBoth(t: string, at: nat, a: string, b: string)
    requires HasAt(t, at, a + b)
    ensures HasAt(t, at, a) && HasAt(t, at + |a|, b)
  {
    forall i | 0 <= i < |a| ensures t[at + i] == a[i] {
      assert (a + b)[i] == a[i];
    }
    forall i | 0 <= i < |b| ensures t[at + |a| + i] == b[i] {
      assert (a + b)[|a| + i] == b[i];
      assert t[at + (|a| + i)] == (a + b)[|a| + i];
    }
  }

  /** No digit stands at `at`. */
  ghost predicate NoDigitAt(t: string, at: nat) {
    at < |t| ==> !IsDigit(t[at])
  }

  lemma DigitsEndThere(t: string, from: nat, digits: string)
    requires HasAt(t, from, digits) && NoDigitAt(t, from + |digits|)
    requires forall i :: 0 <= i < |digits| ==> IsDigit(digits[i])
    ensures DigitEnd(t, from) == from + |digits| && t[from..from + |digits|] == digits
  {
    var end := from + |digits|;
    forall i | from <= i < end ensures IsDigit(t[i]) {
      assert t[from + (i - from)] == digits[i - from];
    }
  }

  /** A spelt placeholder is found and read back as the number it was spelt from. */
  lemma PlaceholderIsFound<V>(t: string, at: nat, digits: string, params: seq<V>)
    requires HasAt(t, at, "$" + digits) && NoDigitAt(t, at + 1 + |digits|)
    requires digits != "" && forall i :: 0 <= i < |digits| ==> IsDigit(digits[i])
    requires 1 <= NumberOf(digits) <= |params|
    ensures Substitute(t, at, params)
         == Joined([Val(params[NumberOf(digits) - 1])], Substitute(t, at + 1 + |digits|, params))
  {
    HasBoth(t, at, "$", digits);
    DigitsEndThere(t, at + 1, digits);
    assert t[at + 0] == "$"[0] && t[at + 1 + 0] == digits[0];
    assert PlaceholderAt(t, at);
  }

  lemma FragmentIsPlain<V>(t: string, at: nat, text: string, params: seq<V>)
    requires HasAt(t, at, text) && '$' !in text
    ensures Substitute(t, at, params) == Joined(Chars(text), Substitute(t, at + |text|, params))
  {
    var end := at + |text|;
    forall i | at <= i < end ensures t[i] == text[i - at] && t[i] != '$' {
      assert t[at + (i - at)] == text[i - at];
      assert text[i - at] in text;
    }
    assert t[at..end] == text;
    SubstitutePlain(t, at, end, params);
  }

  /** A name with no placeholder in it, and no digit after it, stands for itself. */
  lemma NameIsPlain<V>(t: string, at: nat, name: string, params: seq<V>)
    requires HasAt(t, at, name) && Clean(name) && NoDigitAt(t, at + |name|)
    ensures Substitute(t, at, params) == Joined(Chars(name), Substitute(t, at + |name|, params))
  {
    var end := at + |name|;
    forall i | at <= i < end ensures t[i] == name[i - at] && !PlaceholderAt(t, i) {
      assert t[at + (i - at)] == name[i - at];
      assert !PlaceholderAt(name, i - at);
      if i + 1 < end {
        assert t[at + (i + 1 - at)] == name[i + 1 - at];
      }
    }
    assert t[at..end] == name;
    SubstitutePlain(t, at, end, params);
  }

  /** The first placeholder in a name. */
  lemma FirstPlaceholder(name: string) returns (i: nat)
    requires !Clean(name)
    ensures i < |name| && PlaceholderAt(name, i) && NoPlaceholder(name, 0, i)
  {
    i := 0;
    while !PlaceholderAt(name, i)
      invariant i < |name| && NoPlaceholder(name, 0, i)
      decreases |name| - i
    {
      i := i + 1;
    }
  }

  /** A placeholder in a name is taken for one: the text does not read as the name. */
  lemma NameIsMisread<V>(t: string, at: nat, name: string, params: seq<V>, rest: seq<Sym<V>>)
    requires HasAt(t, at, name) && !Clean(name)
    ensures Substitute(t, at, params) != Some(Chars(name) + rest)
  {
    var i := FirstPlaceholder(name);
    assert t[at + i] == name[i] && t[at + (i + 1)] == name[i + 1];
    assert PlaceholderAt(t, at + i);
    forall j | at <= j < at + i ensures !PlaceholderAt(t, j) {
      assert t[at + (j - at)] == name[j - at] && t[at + (j + 1 - at)] == name[j + 1 - at];
      assert !PlaceholderAt(name, j - at);
    }
    SubstitutePlain(t, at, at + i, params);
    var meant: seq<Sym<V>> := Chars(name) + rest;
    assert meant[i] == Ch('$');
    var tail := Substitute(t, at + i, params);
    if tail.Some? {
      assert tail.value != [] && tail.value[0].Val?;
      assert (Chars(t[at..at + i]) + tail.value)[i] == tail.value[0];
    }
  }

  lemma RestKeeps<V>(pieces: seq<Piece<nat>>, meant: seq<Piece<V>>, params: seq<V>)
    requires pieces != [] && Separated(pieces) && Denotes(pieces, meant, params)
    ensures PieceDenotes(pieces[0], meant[0], params)
    ensures Separated(pieces[1..]) && Denotes(pieces[1..], meant[1..], params)
    ensures Open(pieces[0]) && |pieces| > 1 ==> Separates(pieces[1])
  {
    var rest := pieces[1..];
    forall i | 0 <= i < |rest| ensures PieceDenotes(rest[i], meant[1..][i], params) {
      assert PieceDenotes(pieces[i + 1], meant[i + 1], params);
    }
    forall i, j | 0 <= i < j < |rest| && j == i + 1 && Open(rest[i]) ensures Separates(rest[j]) {
      assert pieces[i + 1] == rest[i] && pieces[j + 1] == rest[j];
    }
  }

  /** From `at` to `end` the text reads as `head`. */
  ghost predicate Reads<V>(t: string, at: nat, head: seq<Sym<V>>, end: nat, params: seq<V>) {
    at <= end <= |t| && Substitute(t, at, params) == Joined(head, Substitute(t, end, params))
  }

  lemma HoleMeans<V>(t: string, at: nat, k: nat, v: V, params: seq<V>)
    requires HasAt(t, at, "$" + Decimal(k)) && NoDigitAt(t, at + 1 + |Decimal(k)|)
    requires 1 <= k <= |params| && params[k - 1] == v
    ensures Reads(t, at, [Val(v)], at + 1 + |Decimal(k)|, params)
  {
    DecimalRoundTrip(k);
    PlaceholderIsFound(t, at, Decimal(k), params);
  }

  lemma PieceMeans<V>(t: string, at: nat, p: Piece<nat>, v: Piece<V>, params: seq<V>, text: Fragment -> string)
    requires HasAt(t, at, PieceText(p, text))
    requires Plain(text) && PieceDenotes(p, v, params)
    requires p == Lit(Dictionary) ==> Clean(text(Dictionary))
    requires Open(p) ==> NoDigitAt(t, at + |PieceText(p, text)|)
    ensures Reads(t, at, PieceRead(v, text), at + |PieceText(p, text)|, params)
  {
    match p {
      case Lit(f) =>
        if f == Dictionary {
          NameIsPlain(t, at, text(f), params);
        } else {
          FragmentIsPlain(t, at, text(f), params);
        }
      case Hole(k) => HoleMeans(t, at, k, v.slot, params);
    }
  }

  lemma SpellOpens(pieces: seq<Piece<nat>>, text: Fragment -> string)
    requires Plain(text) && pieces != [] && Separates(pieces[0])
    ensures Spell(pieces, text) != "" && !IsDigit(Spell(pieces, text)[0])
  {
    assert text(pieces[0].fragment) != "";
  }

  /** The head piece being read, the whole is read as meant exactly when the rest is. */
  lemma HeadThenRest<V>(t: string, at: nat, end: nat, params: seq<V>, pieces: seq<Piece<V>>, text: Fragment -> string)
    requires pieces != [] && Reads(t, at, PieceRead(pieces[0], text), end, params)
    ensures Substitute(t, at, params) == Some(Read(pieces, text))
       <==> Substitute(t, end, params) == Some(Read(pieces[1..], text))
  {
    var head, rest := PieceRead(pieces[0], text), Substitute(t, end, params);
    assert Read(pieces, text) == head + Read(pieces[1..], text);
    if rest.Some? && head + rest.value == Read(pieces, text) {
      SameAfter(head, rest.value, Read(pieces[1..], text));
    }
  }

  lemma SameAfter<V>(head: seq<V>, a: seq<V>, b: seq<V>)
    requires head + a == head + b
    ensures a == b
  {
    assert a == (head + a)[|head|..] && b == (head + b)[|head|..];
  }

  lemma HeadIsSeparated(t: string, at: nat, pieces: seq<Piece<nat>>, text: Fragment -> string)
    requires HasAt(t, at, Spell(pieces, text)) && at + |Spell(pieces, text)| == |t|
    requires Plain(text) && (pieces == [] || Separates(pieces[0]))
    ensures NoDigitAt(t, at)
  {
    if pieces != [] {
      SpellOpens(pieces, text);
      assert t[at + 0] == Spell(pieces, text)[0];
    }
  }

  lemma SpellUnfolds(pieces: seq<Piece<nat>>, text: Fragment -> string)
    requires pieces != []
    ensures Spell(pieces, text) == PieceText(pieces[0], text) + Spell(pieces[1..], text)
  {
  }

  lemma HeadStands(t: string, at: nat, pieces: seq<Piece<nat>>, head: string, tail: string, text: Fragment -> string)
    requires HasAt(t, at, Spell(pieces, text)) && at + |Spell(pieces, text)| == |t|
    requires pieces != [] && head == PieceText(pieces[0], text) && tail == Spell(pieces[1..], text)
    ensures HasAt(t, at, head) && HasAt(t, at + |head|, tail) && at + |head| + |tail| == |t|
  {
    SpellUnfolds(pieces, text);
    HasBoth(t, at, head, tail);
  }

  /** The dictionary's name, if the pieces use it, holds nothing that reads as a placeholder. */
  ghost predicate Readable<Slot(!new)>(pieces: seq<Piece<Slot>>, text: Fragment -> string) {
    Lit(Dictionary) in pieces ==> Clean(text(Dictionary))
  }

  lemma ReadableUnfolds(pieces: seq<Piece<nat>>, text: Fragment -> string)
    requires pieces != []
    ensures Readable(pieces, text)
       <==> (pieces[0] == Lit(Dictionary) ==> Clean(text(Dictionary))) && Readable(pieces[1..], text)
  {
    assert pieces == [pieces[0]] + pieces[1..];
  }

  /** A piece that reads as it should leaves the rest to decide. */
  lemma RestDecides<V>(t: string, at: nat, end: nat, p: Piece<nat>, meant: seq<Piece<V>>, params: seq<V>,
                       text: Fragment -> string)
    requires Plain(text) && meant != [] && PieceDenotes(p, meant[0], params)
    requires HasAt(t, at, PieceText(p, text)) && end == at + |PieceText(p, text)|
    requires p == Lit(Dictionary) ==> Clean(text(Dictionary))
    requires Open(p) ==> NoDigitAt(t, end)
    ensures Substitute(t, at, params) == Some(Read(meant, text))
       <==> Substitute(t, end, params) == Some(Read(meant[1..], text))
  {
    PieceMeans(t, at, p, meant[0], params, text);
    HeadThenRest(t, at, end, params, meant, text);
  }

  lemma BadHead<V>(t: string, at: nat, meant: seq<Piece<V>>, params: seq<V>, text: Fragment -> string)
    requires meant != [] && meant[0] == Lit(Dictionary)
    requires HasAt(t, at, text(Dictionary)) && !Clean(text(Dictionary))
    ensures Substitute(t, at, params) != Some(Read(meant, text))
  {
    NameIsMisread(t, at, text(Dictionary), params, Read(meant[1..], text));
    assert Read(meant, text) == Chars(text(Dictionary)) + Read(meant[1..], text);
  }

  /** The text ahead of `at` spells the pieces, which mean `meant`. */
  ghost predicate Spells<V>(t: string, at: nat, pieces: seq<Piece<nat>>, meant: seq<Piece<V>>, params: seq<V>,
                            text: Fragment -> string) {
    && HasAt(t, at, Spell(pieces, text)) && at + |Spell(pieces, text)| == |t|
    && Separated(pieces) && Denotes(pieces, meant, params)
  }

  lemma HeadIsReady<V>(t: string, at: nat, pieces: seq<Piece<nat>>, meant: seq<Piece<V>>, params: seq<V>,
                       text: Fragment -> string, end: nat)
    requires Plain(text) && pieces != [] && Spells(t, at, pieces, meant, params, text)
    requires end == at + |PieceText(pieces[0], text)|
    ensures HasAt(t, at, PieceText(pieces[0], text)) && PieceDenotes(pieces[0], meant[0], params)
    ensures Open(pieces[0]) ==> NoDigitAt(t, end)
    ensures Spells(t, end, pieces[1..], meant[1..], params, text)
  {
    RestKeeps(pieces, meant, params);
    HeadStands(t, at, pieces, PieceText(pieces[0], text), Spell(pieces[1..], text), text);
    if pieces[1..] == [] || Separates(pieces[1..][0]) {
      HeadIsSeparated(t, end, pieces[1..], text);
    }
  }

  /** The head piece alone spoils the reading, or leaves it to the rest. */
  lemma HeadDecides<V>(t: string, at: nat, end: nat, p: Piece<nat>, meant: seq<Piece<V>>, params: seq<V>,
                       text: Fragment -> string)
    requires Plain(text) && meant != [] && PieceDenotes(p, meant[0], params)
    requires HasAt(t, at, PieceText(p, text)) && end == at + |PieceText(p, text)|
    requires Open(p) ==> NoDigitAt(t, end)
    ensures Substitute(t, at, params) == Some(Read(meant, text))
       <==> && (p == Lit(Dictionary) ==> Clean(text(Dictionary)))
            && Substitute(t, end, params) == Some(Read(meant[1..], text))
  {
    if p == Lit(Dictionary) && !Clean(text(Dictionary)) {
      BadHead(t, at, meant, params, text);
    } else {
      RestDecides(t, at, end, p, meant, params, text);
    }
  }

  /** Substituting in the spelt text gives the meant statement exactly when it is readable. */
  lemma {:induction false} SpellMeansIff<V>(t: string, at: nat, pieces: seq<Piece<nat>>, meant: seq<Piece<V>>,
                                            params: seq<V>, text: Fragment -> string)
    requires Plain(text) && Spells(t, at, pieces, meant, params, text)
    ensures Substitute(t, at, params) == Some(Read(meant, text)) <==> Readable(pieces, text)
    decreases |pieces|
  {
    if pieces == [] {
      assert at == |t|;
    } else {
      var end := at + |PieceText(pieces[0], text)|;
      HeadIsReady(t, at, pieces, meant, params, text, end);
      SpellMeansIff(t, end, pieces[1..], meant[1..], params, text);
      HeadDecides(t, at, end, pieces[0], meant, params, text);
      ReadableUnfolds(pieces, text);
    }
  }

  /** A parameter of a statement. */
  datatype Value = Str(text: string) | Num(number: int)

  function Strings(texts: seq<string>): (r: seq<Value>)
    ensures |r| == |texts| && forall i :: 0 <= i < |texts| ==> r[i] == Str(texts[i])
  {
    seq(|texts|, i requires 0 <= i < |texts| => Str(texts[i]))
  }

  function InValues(c: Condition): Clause<Value> {
    match c
    case TextMatches(q) => TextMatches(Str(q))
    case ColumnIs(column, v) => ColumnIs(column, Str(v))
    case Never => Never
    case HasAttribute(name, choices) => HasAttribute(Str(name), Strings(choices))
  }

  function AllInValues(conditions: seq<Condition>): (r: seq<Clause<Value>>)
    ensures |r| == |conditions| && forall i :: 0 <= i < |r| ==> r[i] == InValues(conditions[i])
  {
    seq(|conditions|, i requires 0 <= i < |conditions| => InValues(conditions[i]))
  }

  /** Numbered pieces that can be filled in, and what they become. */
  ghost predicate Fills(a: seq<Piece<nat>>, b: seq<Piece<Value>>, params: seq<Value>) {
    Separated(a) && Denotes(a, b, params)
  }

  /** Nothing at the seam can run into a placeholder's digits. */
  ghost predicate Joins(a: seq<Piece<nat>>, b: seq<Piece<nat>>) {
    a == [] || b == [] || !Open(a[|a| - 1]) || Separates(b[0])
  }

  lemma FillsBoth(a1: seq<Piece<nat>>, b1: seq<Piece<Value>>, a2: seq<Piece<nat>>, b2: seq<Piece<Value>>,
                  params: seq<Value>)
    requires Fills(a1, b1, params) && Fills(a2, b2, params) && Joins(a1, a2)
    ensures Fills(a1 + a2, b1 + b2, params)
  {
    var a, b := a1 + a2, b1 + b2;
    forall i | 0 <= i < |a| ensures PieceDenotes(a[i], b[i], params) {
      if i < |a1| {
        assert PieceDenotes(a1[i], b1[i], params);
      } else {
        assert PieceDenotes(a2[i - |a1|], b2[i - |a1|], params);
      }
    }
    forall i, j | 0 <= i < j < |a| && j == i + 1 && Open(a[i]) ensures Separates(a[j]) {
      if j < |a1| {
        assert Open(a1[i]) && Separates(a1[j]);
      } else if i >= |a1| {
        assert Open(a2[i - |a1|]) && Separates(a2[j - |a1|]);
      }
    }
  }

  /** The values are the first parameters. */
  ghost predicate Opens(values: seq<string>, params: seq<Value>) {
    |values| <= |params| && forall i :: 0 <= i < |values| ==> params[i] == Str(values[i])
  }

  lemma {:induction false} ChoicesFill(choices: seq<nat>, values: seq<string>, params: seq<Value>)
    requires Opens(values, params)
    requires forall i :: 0 <= i < |choices| ==> 1 <= choices[i] <= |values|
    ensures Fills(ChoicePieces(choices), ChoicePieces(Strings(Values(choices, values))), params)
    decreases |choices|
  {
    var meant := Strings(Values(choices, values));
    if |choices| > 1 {
      var before, last := choices[..|choices| - 1], choices[|choices| - 1];
      ChoicesFill(before, values, params);
      assert Strings(Values(before, values)) == meant[..|meant| - 1];
      FillsBoth(ChoicePieces(before), ChoicePieces(meant[..|meant| - 1]), [Lit(Comma), Hole(last)],
                [Lit(Comma), Hole(meant[|meant| - 1])], params);
    }
  }

  lemma AttributeFills(name: nat, choices: seq<nat>, values: seq<string>, params: seq<Value>)
    requires Within(HasAttribute(name, choices), |values|) && Opens(values, params)
    ensures Fills(AttributeHead(name) + ChoicePieces(choices) + [Lit(CloseExists)],
                  AttributeHead(Str(values[name - 1])) + ChoicePieces(Strings(Values(choices, values)))
                  + [Lit(CloseExists)], params)
  {
    var head, meantHead := AttributeHead(name), AttributeHead(Str(values[name - 1]));
    var list, meantList := ChoicePieces(choices), ChoicePieces(Strings(Values(choices, values)));
    assert Fills(head, meantHead, params);
    ChoicesFill(choices, values, params);
    FillsBoth(head, meantHead, list, meantList, params);
    FillsBoth(head + list, meantHead + meantList, [Lit(CloseExists)], [Lit(CloseExists)], params);
  }

  lemma TextFills(k: nat, values: seq<string>, params: seq<Value>)
    requires 1 <= k <= |values| && Opens(values, params)
    ensures Fills(ClausePieces(TextMatches(k)), ClausePieces(TextMatches(Str(values[k - 1]))), params)
  {
  }

  lemma ColumnFills(column: Column, k: nat, values: seq<string>, params: seq<Value>)
    requires 1 <= k <= |values| && Opens(values, params)
    ensures Fills(ClausePieces(ColumnIs(column, k)), ClausePieces(ColumnIs(column, Str(values[k - 1]))), params)
  {
  }

  lemma ClauseFills(c: Clause<nat>, values: seq<string>, params: seq<Value>)
    requires Within(c, |values|) && Opens(values, params)
    ensures Fills(ClausePieces(c), ClausePieces(InValues(Resolve(c, values))), params)
  {
    match c {
      case TextMatches(k) =>
        assert InValues(Resolve(c, values)) == TextMatches(Str(values[k - 1]));
        TextFills(k, values, params);
      case ColumnIs(column, k) =>
        assert InValues(Resolve(c, values)) == ColumnIs(column, Str(values[k - 1]));
        ColumnFills(column, k, values, params);
      case Never =>
        assert InValues(Resolve(c, values)) == Never;
      case HasAttribute(name, choices) =>
        assert InValues(Resolve(c, values)) == HasAttribute(Str(values[name - 1]), Strings(Values(choices, values)));
        AttributeFills(name, choices, values, params);
    }
  }

  lemma FillsAcross(a1: seq<Piece<nat>>, b1: seq<Piece<Value>>, f: Fragment, a2: seq<Piece<nat>>,
                    b2: seq<Piece<Value>>, params: seq<Value>)
    requires Fills(a1, b1, params) && Fills(a2, b2, params) && Separates<nat>(Lit(f))
    ensures Fills(a1 + [Lit(f)] + a2, b1 + [Lit(f)] + b2, params)
  {
    FillsBoth(a1, b1, [Lit(f)], [Lit(f)], params);
    FillsBoth(a1 + [Lit(f)], b1 + [Lit(f)], a2, b2, params);
  }

  lemma MeansPrefix(clauses: seq<Clause<nat>>, values: seq<string>, conditions: seq<Condition>)
    requires clauses != [] && Means(clauses, values, conditions)
    ensures var n := |clauses| - 1;
            && Means(clauses[..n], values, conditions[..n])
            && AllInValues(conditions[..n]) == AllInValues(conditions)[..n]
            && Within(clauses[n], |values|)
            && InValues(Resolve(clauses[n], values)) == AllInValues(conditions)[n]
  {
    assert Within(clauses[|clauses| - 1], |values|);
  }

  lemma {:induction false} ConjunctionFills(clauses: seq<Clause<nat>>, values: seq<string>,
                                            conditions: seq<Condition>, params: seq<Value>)
    requires Means(clauses, values, conditions) && Opens(values, params)
    ensures Fills(Conjunction(clauses), Conjunction(AllInValues(conditions)), params)
    decreases |clauses|
  {
    var meant := AllInValues(conditions);
    if |clauses| > 0 {
      var n := |clauses| - 1;
      MeansPrefix(clauses, values, conditions);
      ClauseFills(clauses[n], values, params);
      if n > 0 {
        ConjunctionFills(clauses[..n], values, conditions[..n], params);
        FillsAcross(Conjunction(clauses[..n]), Conjunction(meant[..n]), And, ClausePieces(clauses[n]),
                    ClausePieces(meant[n]), params);
      }
    }
  }

  lemma WhereFills(clauses: seq<Clause<nat>>, values: seq<string>, conditions: seq<Condition>, params: seq<Value>)
    requires Means(clauses, values, conditions) && Opens(values, params)
    ensures Fills(WherePieces(clauses), WherePieces(AllInValues(conditions)), params)
  {
    if clauses != [] {
      ConjunctionFills(clauses, values, conditions, params);
      FillsBoth([Lit(Where)], [Lit(Where)], Conjunction(clauses), Conjunction(AllInValues(conditions)), params);
    }
  }

  /** The query text's slot in the score. */
  function ScoreSlot(q: Query): Option<nat> {
    if Blank(q.text) then None else Some(1)
  }

  function ScoreValue(q: Query): Option<Value> {
    if Blank(q.text) then None else Some(Str(q.text))
  }

  lemma ScoreFills(q: Query, params: seq<Value>)
    requires !Blank(q.text) ==> params != [] && params[0] == Str(q.text)
    ensures Fills(SearchHead(ScoreSlot(q)), SearchHead(ScoreValue(q)), params)
  {
    var head, from := [Lit(Columns), Lit(Comma)], [Lit(AsScore), Lit(Break), Lit(From), Lit(Table), Lit(Break)];
    var meantHead, meantFrom := [Lit(Columns), Lit(Comma)], [Lit(AsScore), Lit(Break), Lit(From), Lit(Table), Lit(Break)];
    FillsBoth(head, meantHead, ScorePieces(ScoreSlot(q)), ScorePieces(ScoreValue(q)), params);
    FillsBoth(head + ScorePieces(ScoreSlot(q)), meantHead + ScorePieces(ScoreValue(q)), from, meantFrom, params);
  }

  lemma TailFills(n: nat, limit: Value, offset: Value, params: seq<Value>)
    requires |params| == n + 2 && params[n] == limit && params[n + 1] == offset
    ensures Fills(SearchTail<nat>(n + 1, n + 2), SearchTail(limit, offset), params)
  {
  }

  lemma SearchFills(q: Query, where: seq<Piece<nat>>, meant: seq<Piece<Value>>, n: nat, limit: Value, offset: Value,
                    params: seq<Value>)
    requires Fills(where, meant, params)
    requires |params| == n + 2 && params[n] == limit && params[n + 1] == offset
    requires !Blank(q.text) ==> params[0] == Str(q.text)
    ensures Fills(SearchHead(ScoreSlot(q)) + where + SearchTail<nat>(n + 1, n + 2),
                  SearchHead(ScoreValue(q)) + meant + SearchTail(limit, offset), params)
  {
    ScoreFills(q, params);
    TailFills(n, limit, offset, params);
    HeadEndsInText(ScoreSlot(q));
    ThreePartsFill(SearchHead(ScoreSlot(q)), SearchHead(ScoreValue(q)), where, meant, SearchTail<nat>(n + 1, n + 2),
                   SearchTail(limit, offset), params);
  }

  lemma SearchPiecesFill(q: Query, clauses: seq<Clause<nat>>, values: seq<string>, conditions: seq<Condition>,
                         limit: Value, offset: Value, params: seq<Value>)
    requires Means(clauses, values, conditions) && Opens(values, params)
    requires |params| == |values| + 2 && params[|values|] == limit && params[|values| + 1] == offset
    requires !Blank(q.text) ==> params[0] == Str(q.text)
    ensures Fills(SearchPieces<nat>(ScoreSlot(q), clauses, |values| + 1, |values| + 2),
                  SearchPieces(ScoreValue(q), AllInValues(conditions), limit, offset), params)
  {
    WhereFills(clauses, values, conditions, params);
    SearchFills(q, WherePieces(clauses), WherePieces(AllInValues(conditions)), |values|, limit, offset, params);
  }

  lemma HeadEndsInText(query: Option<nat>)
    ensures SearchHead(query) != [] && !Open(SearchHead(query)[|SearchHead(query)| - 1])
  {
  }

  lemma ThreePartsFill(a1: seq<Piece<nat>>, b1: seq<Piece<Value>>, a2: seq<Piece<nat>>, b2: seq<Piece<Value>>,
                       a3: seq<Piece<nat>>, b3: seq<Piece<Value>>, params: seq<Value>)
    requires Fills(a1, b1, params) && Fills(a2, b2, params) && Fills(a3, b3, params)
    requires a1 != [] && !Open(a1[|a1| - 1]) && a3 != [] && Separates(a3[0])
    ensures Fills(a1 + a2 + a3, b1 + b2 + b3, params)
  {
    FillsBoth(a1, b1, a2, b2, params);
    FillsBoth(a1 + a2, b1 + b2, a3, b3, params);
  }

  datatype Statement = Statement(sql: string, params: seq<Value>)

  function PageOf(page: Option<int>): (p: int)
    ensures p >= 1
  {
    if page.Some? && page.value >= 1 then page.value else 1
  }

  function LimitOf(limit: Option<int>): (l: int)
    ensures 1 <= l <= 100
  {
    var wanted := if limit.Some? then limit.value else 20;
    if wanted < 1 then 1 else if wanted > 100 then 100 else wanted
  }

  /** Every hit is on exactly one page. */
  lemma EveryHitHasOnePage(rank: nat, page: Option<int>, limit: Option<int>)
    ensures var l := LimitOf(limit);
            (PageOf(page) - 1) * l <= rank < (PageOf(page) - 1) * l + l <==> PageOf(page) == rank / l + 1
  {
    var l, before := LimitOf(limit), PageOf(page) - 1;
    if before * l <= rank < before * l + l {
      QuotientIsUnique(rank, l, before);
    }
  }

  /** The search statement with every value in its place. */
  function SearchMeaning(q: Query, page: Option<int>, limit: Option<int>): seq<Piece<Value>> {
    SearchPieces(ScoreValue(q), AllInValues(Conditions(q)), Num(LimitOf(limit)),
                 Num((PageOf(page) - 1) * LimitOf(limit)))
  }

  /** The statement's text spells numbered pieces, and every number is in range and names the value meant. */
  ghost predicate Says(statement: Statement, meant: seq<Piece<Value>>, names: Names) {
    exists a :: statement.sql == Spell(a, Texts(names)) && Fills(a, meant, statement.params)
  }

  /** Filling in the statement's parameters gives what is meant exactly when the dictionary's name, if the statement
      uses it, holds nothing that reads as a placeholder. */
  lemma FilledInSaysWhatIsMeantIff(statement: Statement, meant: seq<Piece<Value>>, names: Names)
    requires SafeIdentifier(names.table) && Says(statement, meant, names)
    ensures Substitute(statement.sql, 0, statement.params) == Some(Read(meant, Texts(names)))
       <==> (Lit(Dictionary) in meant ==> Clean(names.dictionary))
  {
    var a :| statement.sql == Spell(a, Texts(names)) && Fills(a, meant, statement.params);
    TextsArePlain(names);
    SpellMeansIff(statement.sql, 0, a, meant, statement.params, Texts(names));
    assert Texts(names)(Dictionary) == names.dictionary;
    SameText(a, meant, statement.params, Dictionary);
  }

  lemma SameText(a: seq<Piece<nat>>, b: seq<Piece<Value>>, params: seq<Value>, f: Fragment)
    requires Denotes(a, b, params)
    ensures Lit(f) in a <==> Lit(f) in b
  {
    if Lit(f) in a {
      var i :| 0 <= i < |a| && a[i] == Lit(f);
      assert PieceDenotes(a[i], b[i], params);
    }
    if Lit(f) in b {
      var i :| 0 <= i < |b| && b[i] == Lit(f);
      assert PieceDenotes(a[i], b[i], params);
    }
  }

  // ---- Which statements use the dictionary -------------------------------------------------------------

  lemma {:induction false} ChoicesUseNoDictionary(choices: seq<Value>)
    ensures Lit(Dictionary) !in ChoicePieces(choices)
    decreases |choices|
  {
    if |choices| > 1 {
      ChoicesUseNoDictionary(choices[..|choices| - 1]);
    }
  }

  lemma ClauseUsesDictionaryIff(c: Clause<Value>)
    ensures Lit(Dictionary) in ClausePieces(c) <==> c.TextMatches?
  {
    match c {
      case TextMatches(q) => assert ClausePieces(c)[1] == Lit(Dictionary);
      case ColumnIs(column, v) => ColumnUsesNoDictionary(column, v);
      case Never =>
      case HasAttribute(name, choices) => ChoicesUseNoDictionary(choices);
    }
  }

  lemma ColumnUsesNoDictionary(column: Column, v: Value)
    ensures Lit(Dictionary) !in ClausePieces(ColumnIs(column, v))
  {
  }

  lemma {:induction false} ConjunctionUsesNoDictionary(clauses: seq<Clause<Value>>)
    requires forall c :: c in clauses ==> !c.TextMatches?
    ensures Lit(Dictionary) !in Conjunction(clauses)
    decreases |clauses|
  {
    if |clauses| > 0 {
      ClauseUsesDictionaryIff(clauses[|clauses| - 1]);
      ConjunctionUsesNoDictionary(clauses[..|clauses| - 1]);
    }
  }

  lemma BlankSearchHasNoTextClause(q: Query)
    requires Blank(q.text)
    ensures forall c :: c in AllInValues(Conditions(q)) ==> !c.TextMatches?
  {
    var conditions := Conditions(q);
    OnlyTextHasTextClause(q);
    forall c | c in AllInValues(conditions) ensures !c.TextMatches? {
      var i :| 0 <= i < |conditions| && AllInValues(conditions)[i] == c;
      assert c == InValues(conditions[i]);
    }
  }

  lemma PlainWhereUsesNoDictionary(clauses: seq<Clause<Value>>)
    requires forall c :: c in clauses ==> !c.TextMatches?
    ensures Lit(Dictionary) !in WherePieces(clauses)
  {
    ConjunctionUsesNoDictionary(clauses);
  }

  lemma TailUsesNoDictionary(limit: Value, offset: Value)
    ensures Lit(Dictionary) !in SearchTail(limit, offset)
  {
  }

  /** The search statement uses the dictionary exactly when there is a text to look for. */
  lemma SearchUsesDictionaryIff(q: Query, page: Option<int>, limit: Option<int>)
    ensures Lit(Dictionary) in SearchMeaning(q, page, limit) <==> !Blank(q.text)
  {
    var head, where := SearchHead(ScoreValue(q)), WherePieces(AllInValues(Conditions(q)));
    var tail := SearchTail(Num(LimitOf(limit)), Num((PageOf(page) - 1) * LimitOf(limit)));
    assert SearchMeaning(q, page, limit) == head + where + tail;
    if Blank(q.text) {
      BlankSearchHasNoTextClause(q);
      PlainWhereUsesNoDictionary(AllInValues(Conditions(q)));
      BlankHeadUsesNoDictionary();
      TailUsesNoDictionary(Num(LimitOf(limit)), Num((PageOf(page) - 1) * LimitOf(limit)));
    } else {
      TextHeadUsesDictionary(ScoreValue(q));
    }
  }

  lemma TextHeadUsesDictionary(query: Option<Value>)
    requires query.Some?
    ensures Lit(Dictionary) in SearchHead(query)
  {
    assert SearchHead(query)[3] == Lit(Dictionary);
  }

  lemma BlankHeadUsesNoDictionary()
    ensures Lit(Dictionary) !in SearchHead<Value>(None)
  {
  }

  lemma FixedFills(head: Heading, params: seq<Value>)
    ensures Fills(Fixed(head), Fixed(head), params)
  {
  }

  lemma PrefixedSays(head: Heading, clauses: seq<Clause<nat>>, values: seq<string>, conditions: seq<Condition>,
                     names: Names)
    requires Means(clauses, values, conditions)
    ensures Says(Spelt(Fixed(head) + WherePieces(clauses), Strings(values), names),
                 Fixed(head) + WherePieces(AllInValues(conditions)), names)
  {
    WhereFills(clauses, values, conditions, Strings(values));
    FixedFills(head, Strings(values));
    FillsBoth(Fixed(head), Fixed(head), WherePieces(clauses), WherePieces(AllInValues(conditions)), Strings(values));
    SpeltSays(Fixed(head) + WherePieces(clauses), Fixed(head) + WherePieces(AllInValues(conditions)), Strings(values),
              names);
  }

  /** The three statements of one search. */
  method Assemble(q: Query, page: Option<int>, limit: Option<int>, names: Names)
    returns (search: Statement, count: Statement, facets: Statement)
    ensures Says(search, SearchMeaning(q, page, limit), names)
    ensures Says(count, CountPieces(AllInValues(Conditions(q))), names)
    ensures Says(facets, FacetPieces(AllInValues(Conditions(q))), names)
  {
    var clauses, values := BuildWhere(q);
    search := SearchStatement(q, page, limit, names, clauses, values);
    SearchSays(q, clauses, values, Conditions(q), Num(LimitOf(limit)), Num((PageOf(page) - 1) * LimitOf(limit)), names);
    count := Spelt(CountPieces(clauses), Strings(values), names);
    PrefixedSays(COUNT_HEAD, clauses, values, Conditions(q), names);
    facets := Spelt(FacetPieces(clauses), Strings(values), names);
    PrefixedSays(FACET_HEAD, clauses, values, Conditions(q), names);
  }

  function SearchStatement(q: Query, page: Option<int>, limit: Option<int>, names: Names, clauses: seq<Clause<nat>>,
                           values: seq<string>): Statement {
    var size := LimitOf(limit);
    var offset := (PageOf(page) - 1) * size;
    Spelt(SearchPieces<nat>(ScoreSlot(q), clauses, |values| + 1, |values| + 2),
          Strings(values) + [Num(size), Num(offset)], names)
  }

  function Spelt(pieces: seq<Piece<nat>>, params: seq<Value>, names: Names): Statement {
    Statement(Spell(pieces, Texts(names)), params)
  }

  lemma SpeltSays(a: seq<Piece<nat>>, b: seq<Piece<Value>>, params: seq<Value>, names: Names)
    requires Fills(a, b, params)
    ensures Says(Spelt(a, params, names), b, names)
  {
  }

  lemma SearchSays(q: Query, clauses: seq<Clause<nat>>, values: seq<string>, conditions: seq<Condition>, limit: Value,
                   offset: Value, names: Names)
    requires Means(clauses, values, conditions)
    requires !Blank(q.text) ==> values != [] && values[0] == q.text
    ensures Says(Spelt(SearchPieces<nat>(ScoreSlot(q), clauses, |values| + 1, |values| + 2),
                       Strings(values) + [limit, offset], names),
                 SearchPieces(ScoreValue(q), AllInValues(conditions), limit, offset), names)
  {
    var params := Strings(values) + [limit, offset];
    ParamsOpen(values, limit, offset);
    SearchPiecesFill(q, clauses, values, conditions, limit, offset, params);
    SpeltSays(SearchPieces<nat>(ScoreSlot(q), clauses, |values| + 1, |values| + 2),
              SearchPieces(ScoreValue(q), AllInValues(conditions), limit, offset), params, names);
  }

  lemma ParamsOpen(values: seq<string>, limit: Value, offset: Value)
    ensures var params := Strings(values) + [limit, offset];
            && Opens(values, params) && |params| == |values| + 2
            && params[|values|] == limit && params[|values| + 1] == offset
  {
  }

  /** Through a database with a dialect: the search statement is split without an error, and into exactly the
      statement with every value in its place, when and only when there is no text to look for or the dictionary's
      name holds nothing that reads as a placeholder. */
  method SearchChunks(q: Query, page: Option<int>, limit: Option<int>, names: Names)
    returns (r: Result<seq<Chunk<Value>>, string>)
    requires SafeIdentifier(names.table)
    ensures r.Ok? && Flatten(r.value) == Read(SearchMeaning(q, page, limit), Texts(names))
       <==> Blank(q.text) || Clean(names.dictionary)
  {
    var search, count, facets := Assemble(q, page, limit, names);
    FilledInSaysWhatIsMeantIff(search, SearchMeaning(q, page, limit), names);
    SearchUsesDictionaryIff(q, page, limit);
    r := ToDatabaseQuery(search.sql, search.params);
  }
}
