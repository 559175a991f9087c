/** `toDatabaseQuery`: splitting a query text at its `$n` placeholders. */
module PlaceholderSplit {
  import opened Wrappers
  import opened JsText

  datatype Chunk<V> = Raw(text: string) | Param(value: V)

  /** A query after substitution: characters of the text and parameter values. */
  datatype Sym<V> = Ch(c: char) | Val(v: V)

  function Chars<V>(t: string): (r: seq<Sym<V>>)
    ensures |r| == |t| && forall i :: 0 <= i < |t| ==> r[i] == Ch(t[i])
  {
    seq(|t|, i requires 0 <= i < |t| => Ch(t[i]))
  }

  function Symbols<V>(chunk: Chunk<V>): seq<Sym<V>> {
    match chunk
    case Raw(text) => Chars(text)
    case Param(value) => [Val(value)]
  }

  /** What joining the chunks yields. */
  function Flatten<V>(chunks: seq<Chunk<V>>): seq<Sym<V>> {
    if chunks == [] then [] else Flatten(chunks[..|chunks| - 1]) + Symbols(chunks[|chunks| - 1])
  }

  /** Where the run of digits that starts at `from` ends. */
  function DigitEnd(s: string, from: nat): (end: nat)
    requires from <= |s|
    ensures from <= end <= |s|
    ensures forall i :: from <= i < end ==> IsDigit(s[i])
    ensures end < |s| ==> !IsDigit(s[end])
    decreases |s| - from
  {
    if from == |s| || !IsDigit(s[from]) then from else DigitEnd(s, from + 1)
  }

  predicate PlaceholderAt(s: string, i: nat) {
    i + 1 < |s| && s[i] == '$' && IsDigit(s[i + 1])
  }

  /** The number the placeholder at `at` names. */
  function NumberAt(s: string, at: nat): nat
    requires PlaceholderAt(s, at)
  {
    NumberOf(s[at + 1..DigitEnd(s, at + 1)])
  }

  /** The simple reading from `at` on, character by character: a `$` with digits stands for the parameter of that
      number, all other characters for themselves; None when a placeholder names no parameter. */
  function Substitute<V>(s: string, at: nat, params: seq<V>): Option<seq<Sym<V>>>
    requires at <= |s|
    decreases |s| - at
  {
    if at == |s| then Some([])
    else if PlaceholderAt(s, at) then
      var k := NumberAt(s, at);
      if 1 <= k <= |params| then Joined([Val(params[k - 1])], Substitute(s, DigitEnd(s, at + 1), params)) else None
    else
      Joined([Ch(s[at])], Substitute(s, at + 1, params))
  }

  /** `done`, in front of what is still to come. */
  function Joined<V>(done: seq<Sym<V>>, rest: Option<seq<Sym<V>>>): Option<seq<Sym<V>>> {
    if rest.Some? then Some(done + rest.value) else None
  }

  lemma JoinedNothing<V>(rest: Option<seq<Sym<V>>>)
    ensures Joined([], rest) == rest
  {
    if rest.Some? {
      assert [] + rest.value == rest.value;
    }
  }

  lemma JoinedTwice<V>(a: seq<Sym<V>>, b: seq<Sym<V>>, rest: Option<seq<Sym<V>>>)
    ensures Joined(a, Joined(b, rest)) == Joined(a + b, rest)
  {
    if rest.Some? {
      assert a + (b + rest.value) == (a + b) + rest.value;
    }
  }

  ghost predicate NoPlaceholder(s: string, from: nat, to: nat) {
    forall i :: from <= i < to ==> !PlaceholderAt(s, i)
  }

  /** Text before the next placeholder stands for itself. */
  lemma {:induction false} SubstitutePlain<V>(s: string, from: nat, to: nat, params: seq<V>)
    requires from <= to <= |s| && NoPlaceholder(s, from, to)
    ensures Substitute(s, from, params) == Joined(Chars(s[from..to]), Substitute(s, to, params))
    decreases if to >= from then to - from else 0
  {
    var chars: seq<Sym<V>> := Chars(s[from..to]);
    if from == to {
      assert chars == [];
      JoinedNothing(Substitute(s, to, params));
    } else {
      SubstitutePlain(s, from + 1, to, params);
      var tail: seq<Sym<V>> := Chars(s[from + 1..to]);
      assert !PlaceholderAt(s, from);
      assert chars == [Ch(s[from])] + tail;
      JoinedTwice([Ch(s[from])], tail, Substitute(s, to, params));
    }
  }

  lemma FlattenAppend<V>(chunks: seq<Chunk<V>>, last: Chunk<V>)
    ensures Flatten(chunks + [last]) == Flatten(chunks) + Symbols(last)
  {
    assert (chunks + [last])[..|chunks|] == chunks;
  }

  /** The first placeholder from `cursor` on, or the length of the query. */
  method NextPlaceholder(query: string, cursor: nat) returns (at: nat)
    requires cursor <= |query|
    ensures cursor <= at <= |query|
    ensures NoPlaceholder(query, cursor, at)
    ensures at < |query| ==> PlaceholderAt(query, at)
  {
    at := cursor;
    while at < |query| && !PlaceholderAt(query, at)
      invariant cursor <= at <= |query|
      invariant NoPlaceholder(query, cursor, at)
    {
      at := at + 1;
    }
  }

  /** The chunks so far and the rest of the text mean the whole text. */
  ghost predicate Progress<V>(query: string, params: seq<V>, chunks: seq<Chunk<V>>, cursor: nat)
    requires cursor <= |query|
  {
    Substitute(query, 0, params) == Joined(Flatten(chunks), Substitute(query, cursor, params))
  }

  lemma ProgressStarts<V>(query: string, params: seq<V>)
    ensures Progress(query, params, [], 0)
  {
    JoinedNothing(Substitute(query, 0, params));
  }

  /** One turn of the loop: raw text up to the placeholder, then its parameter. */
  lemma ProgressOn<V>(query: string, params: seq<V>, chunks: seq<Chunk<V>>, cursor: nat, at: nat, value: V, next: nat)
    requires cursor <= at < next <= |query|
    requires Progress(query, params, chunks, cursor)
    requires NoPlaceholder(query, cursor, at)
    requires Substitute(query, at, params) == Joined([Val(value)], Substitute(query, next, params))
    ensures Progress(query, params, chunks + [Raw(query[cursor..at])] + [Param(value)], next)
  {
    var rest := Substitute(query, next, params);
    var text: seq<Sym<V>> := Chars(query[cursor..at]);
    SubstitutePlain(query, cursor, at, params);
    FlattenAppend(chunks, Raw(query[cursor..at]));
    FlattenAppend(chunks + [Raw(query[cursor..at])], Param(value));
    JoinedTwice(Flatten(chunks), text, Joined([Val(value)], rest));
    JoinedTwice(Flatten(chunks) + text, [Val(value)], rest);
  }

  /** The closing raw chunk. */
  lemma ProgressEnds<V>(query: string, params: seq<V>, chunks: seq<Chunk<V>>, cursor: nat)
    requires cursor <= |query|
    requires Progress(query, params, chunks, cursor)
    requires NoPlaceholder(query, cursor, |query|)
    ensures Substitute(query, 0, params) == Some(Flatten(chunks + [Raw(query[cursor..])]))
  {
    SubstitutePlain(query, cursor, |query|, params);
    assert query[cursor..|query|] == query[cursor..];
    var text: seq<Sym<V>> := Chars(query[cursor..]);
    FlattenAppend(chunks, Raw(query[cursor..]));
    assert text + [] == text;
  }

  /** A placeholder without a parameter spoils the whole text. */
  lemma ProgressFails<V>(query: string, params: seq<V>, chunks: seq<Chunk<V>>, cursor: nat, at: nat)
    requires cursor <= at < |query|
    requires Progress(query, params, chunks, cursor)
    requires NoPlaceholder(query, cursor, at)
    requires Substitute(query, at, params) == None
    ensures Substitute(query, 0, params) == None
  {
    SubstitutePlain(query, cursor, at, params);
  }

  /** Splits losslessly, or throws exactly when some placeholder names no parameter. */
  method ToDatabaseQuery<V>(query: string, params: seq<V>) returns (r: Result<seq<Chunk<V>>, string>)
    ensures Substitute(query, 0, params) == if r.Ok? then Some(Flatten(r.value)) else None
  {
    var chunks: seq<Chunk<V>> := [];
    var cursor := 0;
    ProgressStarts(query, params);
    var at := NextPlaceholder(query, cursor);
    while at < |query|
      invariant 0 <= cursor <= at <= |query|
      invariant NoPlaceholder(query, cursor, at)
      invariant at < |query| ==> PlaceholderAt(query, at)
      invariant Progress(query, params, chunks, cursor)
      decreases |query| - cursor
    {
      var number := NumberAt(query, at);
      var next := DigitEnd(query, at + 1);
      if number < 1 || number > |params| {
        ProgressFails(query, params, chunks, cursor, at);
        return Err(query[at + 1..next]);
      }
      ProgressOn(query, params, chunks, cursor, at, params[number - 1], next);
      chunks := chunks + [Raw(query[cursor..at])] + [Param(params[number - 1])];
      cursor := next;
      at := NextPlaceholder(query, cursor);
    }
    ProgressEnds(query, params, chunks, cursor);
    return Ok(chunks + [Raw(query[cursor..])]);
  }
}
