/**
 * `stableStringify` on JSON values. Text is a sequence of UTF-16 code units. A number is represented by the
 * numeral JavaScript prints for it, which differs for different numbers.
 */
module CanonicalJson {

  type CodeUnit = c: int | 0 <= c < 0x1_0000
  type Text = seq<CodeUnit>

  datatype Json =
    | Null
    | Bool(b: bool)
    | Num(numeral: Text)
    | Str(text: Text)
    | Arr(items: seq<Json>)
    | Obj(members: seq<Member>)

  /** An own property; the members of an object come in the order JavaScript lists them. */
  datatype Member = Member(key: Text, value: Json)

  const QUOTE: CodeUnit := 34
  const BACKSLASH: CodeUnit := 92
  const LETTER_U: CodeUnit := 117
  const COMMA: CodeUnit := 44
  const COLON: CodeUnit := 58
  const OPEN_BRACKET: CodeUnit := 91
  const CLOSE_BRACKET: CodeUnit := 93
  const OPEN_BRACE: CodeUnit := 123
  const CLOSE_BRACE: CodeUnit := 125
  const NULL_TEXT: Text := [110, 117, 108, 108]
  const TRUE_TEXT: Text := [116, 114, 117, 101]
  const FALSE_TEXT: Text := [102, 97, 108, 115, 101]

  // ---- Well-formed values and equality up to key order -------------------------------------------

  predicate IsDigit(c: CodeUnit) { 48 <= c <= 57 }

  /** Digits, sign, point and exponent, opening with a digit or a minus (section 6 of RFC 8259). */
  predicate IsNumeral(t: Text) {
    && t != []
    && (IsDigit(t[0]) || t[0] == 45)
    && forall i :: 0 <= i < |t| ==> IsDigit(t[i]) || t[i] in [43, 45, 46, 69, 101]
  }

  ghost predicate UniqueKeys(ms: seq<Member>) {
    forall i, j :: 0 <= i < j < |ms| ==> ms[i].key != ms[j].key
  }

  ghost predicate WellFormed(v: Json) {
    match v
    case Num(numeral) => IsNumeral(numeral)
    case Arr(items) => forall i :: 0 <= i < |items| ==> WellFormed(items[i])
    case Obj(ms) => UniqueKeys(ms) && forall i :: 0 <= i < |ms| ==> WellFormed(ms[i].value)
    case _ => true
  }

  predicate HasKey(ms: seq<Member>, key: Text) {
    exists i :: 0 <= i < |ms| && ms[i].key == key
  }

  /** `obj[key]` */
  function Get(ms: seq<Member>, key: Text): (v: Json)
    requires HasKey(ms, key)
    ensures exists i :: 0 <= i < |ms| && ms[i].key == key && ms[i].value == v
  {
    if ms[0].key == key then ms[0].value else Get(ms[1..], key)
  }

  /** Equal up to the order of object keys, at every depth. */
  ghost predicate Same(a: Json, b: Json)
    decreases a
  {
    match (a, b)
    case (Arr(xs), Arr(ys)) => |xs| == |ys| && forall i :: 0 <= i < |xs| ==> Same(xs[i], ys[i])
    case (Obj(ms), Obj(ns)) =>
      && (forall k :: HasKey(ms, k) <==> HasKey(ns, k))
      && forall k :: HasKey(ms, k) ==> Same(Get(ms, k), Get(ns, k))
    case _ => a == b
  }

  // ---- Strings -----------------------------------------------------------------------------------

  predicate IsHigh(c: CodeUnit) { 0xD800 <= c <= 0xDBFF }
  predicate IsLow(c: CodeUnit) { 0xDC00 <= c <= 0xDFFF }

  function HexDigit(d: int): CodeUnit
    requires 0 <= d < 16
  {
    if d < 10 then 48 + d else 87 + d
  }

  function UnicodeEscape(c: CodeUnit): Text {
    [BACKSLASH, LETTER_U, HexDigit(c / 4096), HexDigit(c / 256 % 16), HexDigit(c / 16 % 16), HexDigit(c % 16)]
  }

  /** The letter after the backslash of a two-character escape, or 0 when there is none. */
  function ShortEscape(c: CodeUnit): CodeUnit {
    if c == QUOTE then QUOTE
    else if c == BACKSLASH then BACKSLASH
    else if c == 8 then 98
    else if c == 9 then 116
    else if c == 10 then 110
    else if c == 12 then 102
    else if c == 13 then 114
    else 0
  }

  /** How many code units of `s` are written together: two for a surrogate pair. */
  function HeadLength(s: Text): (n: nat)
    requires s != []
    ensures 1 <= n <= |s|
  {
    if IsHigh(s[0]) && |s| > 1 && IsLow(s[1]) then 2 else 1
  }

  /** What they are written as; a lone surrogate and a control character are escaped. */
  function HeadText(s: Text): Text
    requires s != []
  {
    if HeadLength(s) == 2 then s[..2]
    else if ShortEscape(s[0]) != 0 then [BACKSLASH, ShortEscape(s[0])]
    else if s[0] < 32 || IsHigh(s[0]) || IsLow(s[0]) then UnicodeEscape(s[0])
    else [s[0]]
  }

  function Escape(s: Text): Text {
    if s == [] then [] else HeadText(s) + Escape(s[HeadLength(s)..])
  }

  /** `JSON.stringify` of a string, up to its closing quote. */
  function Quote(s: Text): Text { [QUOTE] + Escape(s) + [QUOTE] }

  lemma HexDigitIsInjective(d: int, e: int)
    requires 0 <= d < 16 && 0 <= e < 16 && HexDigit(d) == HexDigit(e)
    ensures d == e
  {
  }

  lemma HexDigitsCompose(c: CodeUnit)
    ensures c == c / 4096 * 4096 + c / 256 % 16 * 256 + c / 16 % 16 * 16 + c % 16
  {
    assert c / 256 / 16 == c / 4096;
    assert c / 16 / 16 == c / 256;
  }

  lemma UnicodeEscapeIsInjective(c: CodeUnit, d: CodeUnit)
    requires UnicodeEscape(c) == UnicodeEscape(d)
    ensures c == d
  {
    var e, f := UnicodeEscape(c), UnicodeEscape(d);
    assert e[2] == f[2] && e[3] == f[3] && e[4] == f[4] && e[5] == f[5];
    HexDigitIsInjective(c / 4096, d / 4096);
    HexDigitIsInjective(c / 256 % 16, d / 256 % 16);
    HexDigitIsInjective(c / 16 % 16, d / 16 % 16);
    HexDigitIsInjective(c % 16, d % 16);
    HexDigitsCompose(c);
    HexDigitsCompose(d);
  }

  /** The units written first can be read off any text that starts with what they are written as. */
  lemma HeadIsReadable(s: Text, t: Text, p: Text, q: Text)
    requires s != [] && t != [] && HeadText(s) + p == HeadText(t) + q
    ensures HeadLength(s) == HeadLength(t) && s[..HeadLength(s)] == t[..HeadLength(t)]
    ensures p == q
  {
    var a, b := HeadText(s), HeadText(t);
    var w := a + p;
    assert w == b + q;
    assert w[0] == a[0] == b[0];
    if |a| > 1 {
      assert w[1] == a[1];
    }
    if |b| > 1 {
      assert w[1] == b[1];
    }
    assert |a| == |b|;
    assert a == w[..|a|] == b;
    assert p == w[|a|..] == q;
    if |a| == 6 {
      UnicodeEscapeIsInjective(s[0], t[0]);
    }
  }

  /** A closing quote comes first exactly when the string is empty. */
  /** No half of a surrogate pair stands alone, and nothing is a control character. */
  ghost predicate Clean(t: Text)
    decreases |t|
  {
    t == []
    || (if IsHigh(t[0]) then |t| > 1 && IsLow(t[1]) && Clean(t[2..]) else !IsLow(t[0]) && t[0] >= 32 && Clean(t[1..]))
  }

  lemma {:induction false} PlainThenClean(a: Text, t: Text)
    requires Clean(t) && forall i :: 0 <= i < |a| ==> 32 <= a[i] < 0xD800
    ensures Clean(a + t)
    decreases |a|
  {
    if a == [] {
      assert a + t == t;
    } else {
      assert (a + t)[1..] == a[1..] + t;
      PlainThenClean(a[1..], t);
    }
  }

  lemma HeadThenClean(s: Text, t: Text)
    requires s != [] && Clean(t)
    ensures Clean(HeadText(s) + t)
  {
    var head := HeadText(s);
    if HeadLength(s) == 2 {
      assert head + t == [s[0], s[1]] + t;
      assert (head + t)[2..] == t;
    } else if ShortEscape(s[0]) == 0 && s[0] >= 32 && !IsHigh(s[0]) && !IsLow(s[0]) {
      assert (head + t)[1..] == t;
    } else {
      PlainThenClean(head, t);
    }
  }

  /** An escaped string is a JSON string and well-formed text: no control character is left in it, and no half of a
      surrogate pair without the other. */
  lemma {:induction false} EscapedIsClean(s: Text)
    ensures Clean(Escape(s))
    decreases |s|
  {
    if s != [] {
      EscapedIsClean(s[HeadLength(s)..]);
      HeadThenClean(s, Escape(s[HeadLength(s)..]));
    }
  }

  lemma EscapeOpens(s: Text, rest: Text)
    ensures (Escape(s) + [QUOTE] + rest)[0] == QUOTE <==> s == []
  {
    if s != [] {
      assert Escape(s)[0] == HeadText(s)[0] != QUOTE;
    }
  }

  lemma EscapeUnfolds(s: Text, rest: Text)
    requires s != []
    ensures Escape(s) + [QUOTE] + rest == HeadText(s) + (Escape(s[HeadLength(s)..]) + [QUOTE] + rest)
  {
  }

  /** A quoted string ends at its own closing quote and determines the string. */
  lemma {:induction false} EscapeIsReadable(s: Text, t: Text, p: Text, q: Text)
    requires Escape(s) + [QUOTE] + p == Escape(t) + [QUOTE] + q
    ensures s == t && p == q
    decreases |s|
  {
    EscapeOpens(s, p);
    EscapeOpens(t, q);
    if s == [] {
      assert p == ([QUOTE] + p)[1..] && q == ([QUOTE] + q)[1..];
      assert Escape(s) + [QUOTE] + p == [QUOTE] + p && Escape(t) + [QUOTE] + q == [QUOTE] + q;
    } else {
      var m, n := HeadLength(s), HeadLength(t);
      EscapeUnfolds(s, p);
      EscapeUnfolds(t, q);
      HeadIsReadable(s, t, Escape(s[m..]) + [QUOTE] + p, Escape(t[n..]) + [QUOTE] + q);
      EscapeIsReadable(s[m..], t[n..], p, q);
      assert s == s[..m] + s[m..] && t == t[..n] + t[n..];
    }
  }

  // ---- Sorting keys ------------------------------------------------------------------------------

  /** The default order of `Array.prototype.sort` on strings: by code units. */
  predicate Less(a: Text, b: Text) {
    b != [] && (a == [] || a[0] < b[0] || (a[0] == b[0] && Less(a[1..], b[1..])))
  }

  lemma {:induction false} LessIsTotal(a: Text, b: Text)
    ensures Less(a, b) || Less(b, a) || a == b
  {
    if a != [] && b != [] && a[0] == b[0] {
      LessIsTotal(a[1..], b[1..]);
      assert a == [a[0]] + a[1..] && b == [b[0]] + b[1..];
    }
  }

  lemma {:induction false} LessIsTransitive(a: Text, b: Text, c: Text)
    requires Less(a, b) && Less(b, c)
    ensures Less(a, c)
  {
    if a != [] && a[0] == b[0] && b[0] == c[0] {
      LessIsTransitive(a[1..], b[1..], c[1..]);
    }
  }

  lemma {:induction false} LessIsIrreflexive(a: Text)
    ensures !Less(a, a)
  {
    if a != [] {
      LessIsIrreflexive(a[1..]);
    }
  }

  ghost predicate Ascending(ks: seq<Text>) {
    forall i, j :: 0 <= i < j < |ks| ==> Less(ks[i], ks[j])
  }

  function Insert(k: Text, ks: seq<Text>): (r: seq<Text>)
    ensures forall x :: x in r <==> x == k || x in ks
  {
    if ks == [] || Less(k, ks[0]) then [k] + ks else [ks[0]] + Insert(k, ks[1..])
  }

  lemma {:induction false} InsertKeepsAscending(k: Text, ks: seq<Text>)
    requires Ascending(ks) && k !in ks
    ensures Ascending(Insert(k, ks))
  {
    if ks != [] {
      if Less(k, ks[0]) {
        forall j | 0 <= j < |ks| ensures Less(k, ks[j]) {
          if j > 0 { LessIsTransitive(k, ks[0], ks[j]); }
        }
      } else {
        LessIsTotal(k, ks[0]);
        InsertKeepsAscending(k, ks[1..]);
        assert forall x :: x in ks[1..] ==> Less(ks[0], x);
      }
    }
  }

  /** `Object.keys(obj).sort()` */
  function SortedKeys(ms: seq<Member>): (ks: seq<Text>)
    ensures forall k :: k in ks <==> HasKey(ms, k)
  {
    if ms == [] then []
    else
      assert forall k :: HasKey(ms, k) <==> k == ms[0].key || HasKey(ms[1..], k) by {
        KeysOfTail(ms);
      }
      Insert(ms[0].key, SortedKeys(ms[1..]))
  }

  lemma KeysOfTail(ms: seq<Member>)
    requires ms != []
    ensures forall k :: HasKey(ms, k) <==> k == ms[0].key || HasKey(ms[1..], k)
  {
    assert HasKey(ms, ms[0].key);
    forall k
      ensures HasKey(ms, k) <==> k == ms[0].key || HasKey(ms[1..], k)
    {
      if HasKey(ms, k) {
        var i :| 0 <= i < |ms| && ms[i].key == k;
        if i > 0 {
          assert ms[1..][i - 1].key == k;
          assert HasKey(ms[1..], k);
        }
      }
      if HasKey(ms[1..], k) {
        var i :| 0 <= i < |ms[1..]| && ms[1..][i].key == k;
        assert ms[i + 1].key == k;
        assert HasKey(ms, k);
      }
    }
  }

  lemma {:induction false} SortedKeysAscend(ms: seq<Member>)
    requires UniqueKeys(ms)
    ensures Ascending(SortedKeys(ms))
  {
    if ms != [] {
      SortedKeysAscend(ms[1..]);
      assert !HasKey(ms[1..], ms[0].key);
      InsertKeepsAscending(ms[0].key, SortedKeys(ms[1..]));
    }
  }

  /** A set of keys has one ascending listing. */
  lemma {:induction false} AscendingIsUnique(ks: seq<Text>, ls: seq<Text>)
    requires Ascending(ks) && Ascending(ls)
    requires forall k :: k in ks <==> k in ls
    ensures ks == ls
  {
    assert ks != [] ==> ks[0] in ls;
    assert ls != [] ==> ls[0] in ks;
    if ks != [] {
      HeadsAgree(ks, ls);
      TailOfAscending(ks);
      TailOfAscending(ls);
      AscendingIsUnique(ks[1..], ls[1..]);
      assert ks == [ks[0]] + ks[1..] && ls == [ls[0]] + ls[1..];
    }
  }

  lemma TailOfAscending(ks: seq<Text>)
    requires Ascending(ks) && ks != []
    ensures forall k :: k in ks[1..] <==> k in ks && k != ks[0]
  {
    LessIsIrreflexive(ks[0]);
    assert ks == [ks[0]] + ks[1..];
    assert forall j :: 0 <= j < |ks[1..]| ==> ks[1..][j] == ks[j + 1];
  }

  lemma HeadsAgree(ks: seq<Text>, ls: seq<Text>)
    requires Ascending(ks) && Ascending(ls) && ks != [] && ls != [] && ks[0] in ls && ls[0] in ks
    ensures ks[0] == ls[0]
  {
    if ks[0] != ls[0] {
      var i :| 0 <= i < |ls| && ls[i] == ks[0];
      var j :| 0 <= j < |ks| && ks[j] == ls[0];
      assert Less(ls[0], ks[0]) && Less(ks[0], ls[0]);
      LessIsTransitive(ks[0], ls[0], ks[0]);
      LessIsIrreflexive(ks[0]);
      assert false;
    }
  }

  // ---- stableStringify ---------------------------------------------------------------------------

  /** What follows the first of `texts` when they are joined by commas. */
  function Commas(texts: seq<Text>): Text {
    if texts == [] then [] else [COMMA] + texts[0] + Commas(texts[1..])
  }

  /** `texts.join(",")` */
  function Join(texts: seq<Text>): Text {
    if texts == [] then [] else texts[0] + Commas(texts[1..])
  }

  function StableStringify(v: Json): Text
    decreases v, 1, 0
  {
    match v
    case Null => NULL_TEXT
    case Bool(b) => if b then TRUE_TEXT else FALSE_TEXT
    case Num(numeral) => numeral
    case Str(text) => Quote(text)
    case Arr(items) => [OPEN_BRACKET] + Join(ItemTexts(items)) + [CLOSE_BRACKET]
    case Obj(ms) => [OPEN_BRACE] + Join(MemberTexts(ms, SortedKeys(ms))) + [CLOSE_BRACE]
  }

  function ItemTexts(items: seq<Json>): (texts: seq<Text>)
    ensures |texts| == |items|
    ensures forall i :: 0 <= i < |items| ==> texts[i] == StableStringify(items[i])
    decreases items, 0, 0
  {
    if items == [] then [] else [StableStringify(items[0])] + ItemTexts(items[1..])
  }

  function MemberText(ms: seq<Member>, key: Text): Text
    requires HasKey(ms, key)
    decreases ms, 0, 0
  {
    Quote(key) + [COLON] + StableStringify(Get(ms, key))
  }

  function MemberTexts(ms: seq<Member>, keys: seq<Text>): (texts: seq<Text>)
    requires forall k :: k in keys ==> HasKey(ms, k)
    ensures |texts| == |keys|
    ensures forall i :: 0 <= i < |keys| ==> texts[i] == MemberText(ms, keys[i])
    decreases ms, 1, |keys|
  {
    if keys == [] then [] else [MemberText(ms, keys[0])] + MemberTexts(ms, keys[1..])
  }

  // ---- Values that are the same serialise equally --------------------------------------------------

  lemma {:induction false} SameValuesSerialiseEqually(a: Json, b: Json)
    requires WellFormed(a) && WellFormed(b) && Same(a, b)
    ensures StableStringify(a) == StableStringify(b)
    decreases a
  {
    match (a, b)
    case (Arr(xs), Arr(ys)) =>
      forall i | 0 <= i < |xs| ensures StableStringify(xs[i]) == StableStringify(ys[i]) {
        SameValuesSerialiseEqually(xs[i], ys[i]);
      }
      assert ItemTexts(xs) == ItemTexts(ys);
    case (Obj(ms), Obj(ns)) =>
      var ks, ls := SortedKeys(ms), SortedKeys(ns);
      SortedKeysAscend(ms);
      SortedKeysAscend(ns);
      AscendingIsUnique(ks, ls);
      forall k | HasKey(ms, k) ensures MemberText(ms, k) == MemberText(ns, k) {
        SameValuesSerialiseEqually(Get(ms, k), Get(ns, k));
      }
      assert MemberTexts(ms, ks) == MemberTexts(ns, ls);
    case _ =>
  }

  // ---- Equal serialisations come from values that are the same -------------------------------------

  /** What can follow a value inside a document. */
  predicate Delimited(rest: Text) {
    rest == [] || rest[0] in [COMMA, CLOSE_BRACKET, CLOSE_BRACE]
  }

  /** A numeral does not go on past a delimiter. */
  lemma NumeralEnds(m: Text, n: Text, p: Text, q: Text)
    requires IsNumeral(n) && Delimited(p) && |m| < |n|
    ensures m + p != n + q
  {
    if p != [] {
      assert (m + p)[|m|] == p[0] && (n + q)[|m|] == n[|m|];
    }
  }

  lemma NumeralIsReadable(m: Text, n: Text, p: Text, q: Text)
    requires IsNumeral(m) && IsNumeral(n) && m + p == n + q && Delimited(p) && Delimited(q)
    ensures m == n && p == q
  {
    if |m| < |n| {
      NumeralEnds(m, n, p, q);
    } else if |n| < |m| {
      NumeralEnds(n, m, q, p);
    } else {
      SplitEqual(m, p, n, q);
    }
  }

  lemma SplitEqual(s: Text, p: Text, t: Text, q: Text)
    requires s + p == t + q && |s| == |t|
    ensures s == t && p == q
  {
    assert s == (s + p)[..|s|] && t == (t + q)[..|t|];
    assert p == (s + p)[|s|..] && q == (t + q)[|t|..];
  }

  /** The first code unit tells the kind of value, and is never a delimiter. */
  lemma FirstUnit(v: Json)
    requires WellFormed(v)
    ensures var t := StableStringify(v);
            && t != []
            && (t[0] == 110 <==> v.Null?)
            && (t[0] == 116 <==> v == Bool(true))
            && (t[0] == 102 <==> v == Bool(false))
            && (IsDigit(t[0]) || t[0] == 45 <==> v.Num?)
            && (t[0] == QUOTE <==> v.Str?)
            && (t[0] == OPEN_BRACKET <==> v.Arr?)
            && (t[0] == OPEN_BRACE <==> v.Obj?)
            && t[0] !in [COMMA, CLOSE_BRACKET, CLOSE_BRACE]
  {
  }

  lemma QuoteIsReadable(s: Text, t: Text, p: Text, q: Text)
    requires Quote(s) + p == Quote(t) + q
    ensures s == t && p == q
  {
    var w := Quote(s) + p;
    assert w[1..] == Escape(s) + [QUOTE] + p;
    assert w == Quote(t) + q && w[1..] == Escape(t) + [QUOTE] + q;
    EscapeIsReadable(s, t, p, q);
  }

  lemma SameKind(a: Json, b: Json, p: Text, q: Text)
    requires WellFormed(a) && WellFormed(b)
    requires StableStringify(a) + p == StableStringify(b) + q
    ensures a.Null? == b.Null? && a.Num? == b.Num? && a.Str? == b.Str? && a.Arr? == b.Arr? && a.Obj? == b.Obj?
    ensures a.Bool? ==> a == b
  {
    FirstUnit(a);
    FirstUnit(b);
    assert (StableStringify(a) + p)[0] == StableStringify(a)[0];
    assert (StableStringify(b) + q)[0] == StableStringify(b)[0];
  }

  /** A serialised value can be read off any text it opens: it determines the value up to key order, and with it
      where the value ends. */
  lemma {:induction false} ValueIsReadable(a: Json, b: Json, p: Text, q: Text)
    requires WellFormed(a) && WellFormed(b) && Delimited(p) && Delimited(q)
    requires StableStringify(a) + p == StableStringify(b) + q
    ensures Same(a, b) && p == q
    decreases a, 1, 0
  {
    SameKind(a, b, p, q);
    match a
    case Num(m) => NumeralIsReadable(m, b.numeral, p, q);
    case Str(m) => QuoteIsReadable(m, b.text, p, q);
    case Arr(xs) => ArrayIsReadable(xs, b.items, p, q);
    case Obj(ms) => ObjectIsReadable(ms, b.members, p, q);
    case _ => SplitEqual(StableStringify(a), p, StableStringify(b), q);
  }

  /** Peeling the opening and keeping the closing delimiter of a list. */
  lemma Peel(open: CodeUnit, s: Text, close: CodeUnit, p: Text)
    ensures [open] + s + [close] + p == [open] + (s + ([close] + p))
  {
  }

  lemma {:induction false} ArrayIsReadable(xs: seq<Json>, ys: seq<Json>, p: Text, q: Text)
    requires forall i :: 0 <= i < |xs| ==> WellFormed(xs[i])
    requires forall i :: 0 <= i < |ys| ==> WellFormed(ys[i])
    requires StableStringify(Arr(xs)) + p == StableStringify(Arr(ys)) + q
    ensures Same(Arr(xs), Arr(ys)) && p == q
    decreases xs, 2, 0
  {
    var s, t := Join(ItemTexts(xs)), Join(ItemTexts(ys));
    Peel(OPEN_BRACKET, s, CLOSE_BRACKET, p);
    Peel(OPEN_BRACKET, t, CLOSE_BRACKET, q);
    SplitEqual([OPEN_BRACKET], s + ([CLOSE_BRACKET] + p), [OPEN_BRACKET], t + ([CLOSE_BRACKET] + q));
    ItemsOpen(xs, [CLOSE_BRACKET] + p);
    ItemsOpen(ys, [CLOSE_BRACKET] + q);
    if xs == [] {
      assert s + ([CLOSE_BRACKET] + p) == [CLOSE_BRACKET] + p && t + ([CLOSE_BRACKET] + q) == [CLOSE_BRACKET] + q;
      SplitEqual([CLOSE_BRACKET], p, [CLOSE_BRACKET], q);
    } else {
      ItemsAreReadable(xs, ys, p, q);
    }
  }

  lemma JoinOpens(texts: seq<Text>, rest: Text)
    requires texts != [] && texts[0] != []
    ensures (Join(texts) + rest)[0] == texts[0][0]
  {
  }

  /** A closing bracket comes first exactly when there are no items. */
  lemma ItemsOpen(xs: seq<Json>, rest: Text)
    requires forall i :: 0 <= i < |xs| ==> WellFormed(xs[i])
    requires rest != [] && rest[0] == CLOSE_BRACKET
    ensures (Join(ItemTexts(xs)) + rest)[0] == CLOSE_BRACKET <==> xs == []
  {
    if xs != [] {
      FirstUnit(xs[0]);
      JoinOpens(ItemTexts(xs), rest);
    }
  }

  lemma JoinUnfolds(texts: seq<Text>, rest: Text)
    requires texts != []
    ensures Join(texts) + rest == texts[0] + (Commas(texts[1..]) + rest)
    ensures Commas(texts[1..]) + rest == if |texts| == 1 then rest else [COMMA] + (Join(texts[1..]) + rest)
  {
  }

  /** After one item, two equal joins either both close or both go on with equal joins. */
  lemma AfterItem(ts: seq<Text>, us: seq<Text>, close: CodeUnit, p: Text, q: Text)
    requires ts != [] && us != [] && close != COMMA
    requires Commas(ts[1..]) + ([close] + p) == Commas(us[1..]) + ([close] + q)
    ensures |ts| == 1 <==> |us| == 1
    ensures |ts| == 1 ==> p == q
    ensures |ts| > 1 ==> Join(ts[1..]) + ([close] + p) == Join(us[1..]) + ([close] + q)
  {
    var s, t := [close] + p, [close] + q;
    JoinUnfolds(ts, s);
    JoinUnfolds(us, t);
    var u := Commas(ts[1..]) + s;
    assert u[0] == close <==> |ts| == 1;
    assert u[0] == close <==> |us| == 1;
    if |ts| == 1 {
      SplitEqual([close], p, [close], q);
    } else {
      SplitEqual([COMMA], Join(ts[1..]) + s, [COMMA], Join(us[1..]) + t);
    }
  }

  lemma {:induction false} ItemsAreReadable(xs: seq<Json>, ys: seq<Json>, p: Text, q: Text)
    requires xs != [] && ys != []
    requires forall i :: 0 <= i < |xs| ==> WellFormed(xs[i])
    requires forall i :: 0 <= i < |ys| ==> WellFormed(ys[i])
    requires Join(ItemTexts(xs)) + ([CLOSE_BRACKET] + p) == Join(ItemTexts(ys)) + ([CLOSE_BRACKET] + q)
    ensures |xs| == |ys| && (forall i :: 0 <= i < |xs| ==> Same(xs[i], ys[i])) && p == q
    decreases xs, 1, 0
  {
    var s, t := [CLOSE_BRACKET] + p, [CLOSE_BRACKET] + q;
    JoinUnfolds(ItemTexts(xs), s);
    JoinUnfolds(ItemTexts(ys), t);
    var u, v := Commas(ItemTexts(xs)[1..]) + s, Commas(ItemTexts(ys)[1..]) + t;
    ValueIsReadable(xs[0], ys[0], u, v);
    AfterItem(ItemTexts(xs), ItemTexts(ys), CLOSE_BRACKET, p, q);
    if |xs| > 1 {
      assert ItemTexts(xs)[1..] == ItemTexts(xs[1..]) && ItemTexts(ys)[1..] == ItemTexts(ys[1..]);
      ItemsAreReadable(xs[1..], ys[1..], p, q);
      assert forall i :: 1 <= i < |xs| ==> xs[i] == xs[1..][i - 1] && ys[i] == ys[1..][i - 1];
    }
  }

  lemma {:induction false} ObjectIsReadable(ms: seq<Member>, ns: seq<Member>, p: Text, q: Text)
    requires WellFormed(Obj(ms)) && WellFormed(Obj(ns))
    requires StableStringify(Obj(ms)) + p == StableStringify(Obj(ns)) + q
    ensures Same(Obj(ms), Obj(ns)) && p == q
    decreases ms, 2, 0
  {
    var ks, ls := SortedKeys(ms), SortedKeys(ns);
    var s, t := Join(MemberTexts(ms, ks)), Join(MemberTexts(ns, ls));
    Peel(OPEN_BRACE, s, CLOSE_BRACE, p);
    Peel(OPEN_BRACE, t, CLOSE_BRACE, q);
    SplitEqual([OPEN_BRACE], s + ([CLOSE_BRACE] + p), [OPEN_BRACE], t + ([CLOSE_BRACE] + q));
    assert (s + ([CLOSE_BRACE] + p))[0] == CLOSE_BRACE <==> ks == [];
    assert (t + ([CLOSE_BRACE] + q))[0] == CLOSE_BRACE <==> ls == [];
    if ks == [] {
      assert s + ([CLOSE_BRACE] + p) == [CLOSE_BRACE] + p && t + ([CLOSE_BRACE] + q) == [CLOSE_BRACE] + q;
      SplitEqual([CLOSE_BRACE], p, [CLOSE_BRACE], q);
    } else {
      MembersAreReadable(ms, ks, ns, ls, p, q);
    }
  }

  lemma MemberTextUnfolds(ms: seq<Member>, k: Text, rest: Text)
    requires HasKey(ms, k)
    ensures MemberText(ms, k) + rest == Quote(k) + ([COLON] + (StableStringify(Get(ms, k)) + rest))
  {
  }

  lemma GetIsWellFormed(ms: seq<Member>, k: Text)
    requires WellFormed(Obj(ms)) && HasKey(ms, k)
    ensures WellFormed(Get(ms, k))
  {
  }

  lemma {:induction false} MembersAreReadable(
    ms: seq<Member>, ks: seq<Text>, ns: seq<Member>, ls: seq<Text>, p: Text, q: Text)
    requires ks != [] && ls != []
    requires WellFormed(Obj(ms)) && WellFormed(Obj(ns))
    requires forall k :: k in ks ==> HasKey(ms, k)
    requires forall k :: k in ls ==> HasKey(ns, k)
    requires Join(MemberTexts(ms, ks)) + ([CLOSE_BRACE] + p) == Join(MemberTexts(ns, ls)) + ([CLOSE_BRACE] + q)
    ensures ks == ls && (forall k :: k in ks ==> Same(Get(ms, k), Get(ns, k))) && p == q
    decreases ms, 1, |ks|
  {
    FirstMemberIsReadable(ms, ks, ns, ls, p, q);
    if |ks| == 1 {
      assert ks[1..] == [] && ls[1..] == [];
    } else {
      MembersAreReadable(ms, ks[1..], ns, ls[1..], p, q);
    }
    HeadAndTailAgree(ms, ks, ns, ls);
  }

  lemma HeadAndTailAgree(ms: seq<Member>, ks: seq<Text>, ns: seq<Member>, ls: seq<Text>)
    requires ks != [] && ls != [] && ks[0] == ls[0] && ks[1..] == ls[1..]
    requires forall k :: k in ks ==> HasKey(ms, k) && HasKey(ns, k)
    requires Same(Get(ms, ks[0]), Get(ns, ks[0])) && forall k :: k in ks[1..] ==> Same(Get(ms, k), Get(ns, k))
    ensures ks == ls && forall k :: k in ks ==> Same(Get(ms, k), Get(ns, k))
  {
    assert ks == [ks[0]] + ks[1..] && ls == [ls[0]] + ls[1..];
  }

  /** The first members agree, and either both texts close after them or both go on with equal texts. */
  lemma {:induction false} FirstMemberIsReadable(
    ms: seq<Member>, ks: seq<Text>, ns: seq<Member>, ls: seq<Text>, p: Text, q: Text)
    requires ks != [] && ls != []
    requires WellFormed(Obj(ms)) && WellFormed(Obj(ns))
    requires forall k :: k in ks ==> HasKey(ms, k)
    requires forall k :: k in ls ==> HasKey(ns, k)
    requires Join(MemberTexts(ms, ks)) + ([CLOSE_BRACE] + p) == Join(MemberTexts(ns, ls)) + ([CLOSE_BRACE] + q)
    ensures ks[0] == ls[0] && Same(Get(ms, ks[0]), Get(ns, ks[0]))
    ensures |ks| == 1 <==> |ls| == 1
    ensures |ks| == 1 ==> p == q
    ensures |ks| > 1 ==>
              Join(MemberTexts(ms, ks[1..])) + ([CLOSE_BRACE] + p)
              == Join(MemberTexts(ns, ls[1..])) + ([CLOSE_BRACE] + q)
    decreases ms, 0, 1
  {
    var s, t := [CLOSE_BRACE] + p, [CLOSE_BRACE] + q;
    var ts, us := MemberTexts(ms, ks), MemberTexts(ns, ls);
    JoinUnfolds(ts, s);
    JoinUnfolds(us, t);
    MemberIsReadable(ms, ks[0], ns, ls[0], Commas(ts[1..]) + s, Commas(us[1..]) + t);
    AfterItem(ts, us, CLOSE_BRACE, p, q);
    assert ts[1..] == MemberTexts(ms, ks[1..]) && us[1..] == MemberTexts(ns, ls[1..]);
  }

  lemma {:induction false} MemberIsReadable(ms: seq<Member>, k: Text, ns: seq<Member>, l: Text, u: Text, v: Text)
    requires WellFormed(Obj(ms)) && WellFormed(Obj(ns)) && HasKey(ms, k) && HasKey(ns, l)
    requires Delimited(u) && Delimited(v)
    requires MemberText(ms, k) + u == MemberText(ns, l) + v
    ensures k == l && Same(Get(ms, k), Get(ns, k)) && u == v
    decreases ms, 0, 0
  {
    var a, b := Get(ms, k), Get(ns, l);
    MemberTextUnfolds(ms, k, u);
    MemberTextUnfolds(ns, l, v);
    QuoteIsReadable(k, l, [COLON] + (StableStringify(a) + u), [COLON] + (StableStringify(b) + v));
    SplitEqual([COLON], StableStringify(a) + u, [COLON], StableStringify(b) + v);
    GetIsWellFormed(ms, k);
    GetIsWellFormed(ns, l);
    ValueIsReadable(a, b, u, v);
  }

  /** `stableStringify` is a canonical form: two values serialise equally exactly when they are equal up to key
      order at every depth. */
  lemma StableStringifyIsCanonical(a: Json, b: Json)
    requires WellFormed(a) && WellFormed(b)
    ensures StableStringify(a) == StableStringify(b) <==> Same(a, b)
  {
    if Same(a, b) {
      SameValuesSerialiseEqually(a, b);
    }
    if StableStringify(a) == StableStringify(b) {
      assert StableStringify(a) + [] == StableStringify(b) + [];
      ValueIsReadable(a, b, [], []);
    }
  }
}
