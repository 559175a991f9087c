/** `appendCatalogFields`: folding a product's fields into native values, metadata, filters and tags. */
module CatalogFields {
  import opened Wrappers
  import opened JsText

  datatype Intent = Filterable | Display | Tag

  /** One entry of a tag field. */
  datatype Entry = Text(text: string) | Number(text: string) | Named(name: string) | Other

  datatype Value = Single(entry: Entry) | Many(entries: seq<Entry>)

  datatype Field = Field(
    path: string,
    intent: Intent,
    value: Value,
    locale: Option<string>,
    remoteKey: Option<string>)

  datatype Meta = Meta(key: string, value: Value)

  const PORULLE_META_PREFIX := "porulle_"

  /** The remote key of a field, when it has one that is not blank. */
  function RemoteKey(f: Field): Option<string> {
    if f.remoteKey.None? || Trim(f.remoteKey.value) == "" then None else Some(Trim(f.remoteKey.value))
  }

  function MetaKey(key: string): string {
    if PORULLE_META_PREFIX <= Trim(key) then Trim(key) else PORULLE_META_PREFIX + Trim(key)
  }

  /** Two keys share one metadata entry exactly when they differ at most by the prefix. */
  lemma MetaKeysMeetIff(a: string, b: string)
    ensures MetaKey(a) == MetaKey(b)
       <==> || Trim(a) == Trim(b)
            || (Trim(a) == PORULLE_META_PREFIX + Trim(b) && !(PORULLE_META_PREFIX <= Trim(b)))
            || (Trim(b) == PORULLE_META_PREFIX + Trim(a) && !(PORULLE_META_PREFIX <= Trim(a)))
  {
    assert (PORULLE_META_PREFIX + Trim(a))[|PORULLE_META_PREFIX|..] == Trim(a);
    assert (PORULLE_META_PREFIX + Trim(b))[|PORULLE_META_PREFIX|..] == Trim(b);
  }

  /** Where a field ends up. */
  datatype Target = Native(key: string) | Metadatum(key: string) | Filters | Tags | Keyless

  function TargetOf(f: Field, native: set<string>): Target {
    if f.intent == Tag then Tags
    else
      match RemoteKey(f)
      case None => Keyless
      case Some(key) =>
        if f.intent == Filterable then Filters
        else if key in native then Native(key)
        else Metadatum(MetaKey(key))
  }

  function EntryTags(e: Entry): seq<string> {
    match e
    case Text(text) => if Trim(text) != "" then [Trim(text)] else []
    case Number(text) => [text]
    case Named(name) => if Trim(name) != "" then [Trim(name)] else []
    case Other => []
  }

  function EntriesTags(entries: seq<Entry>): seq<string> {
    if entries == [] then [] else EntryTags(entries[0]) + EntriesTags(entries[1..])
  }

  function TagValues(v: Value): seq<string> {
    EntriesTags(match v case Single(e) => [e] case Many(entries) => entries)
  }

  predicate English(f: Field) { f.locale == Some("en") }

  /** The first field for the target; with `english`, the first one in English. */
  function First(fields: seq<Field>, native: set<string>, target: Target, english: bool): Option<Field> {
    if fields == [] then None
    else if TargetOf(fields[0], native) == target && (english ==> English(fields[0])) then Some(fields[0])
    else First(fields[1..], native, target, english)
  }

  /** The field whose value a key ends with: the first English one if there is one, else the first one. */
  function Winner(fields: seq<Field>, native: set<string>, target: Target): Option<Field> {
    var english := First(fields, native, target, true);
    if english.Some? then english else First(fields, native, target, false)
  }

  lemma {:induction false} FirstAppend(fields: seq<Field>, f: Field, native: set<string>, target: Target, english: bool)
    ensures First(fields + [f], native, target, english)
         == if First(fields, native, target, english).Some? then First(fields, native, target, english)
            else if TargetOf(f, native) == target && (english ==> English(f)) then Some(f)
            else None
  {
    if fields == [] {
      assert [f][1..] == [];
    } else {
      assert (fields + [f])[1..] == fields[1..] + [f];
      FirstAppend(fields[1..], f, native, target, english);
    }
  }

  lemma {:induction false} FirstFits(fields: seq<Field>, native: set<string>, target: Target, english: bool)
    ensures var first := First(fields, native, target, english);
            && (first.Some? ==> first.value in fields && TargetOf(first.value, native) == target)
            && (first.Some? && english ==> English(first.value))
            && (first.Some? <==> exists f :: f in fields && TargetOf(f, native) == target && (english ==> English(f)))
  {
    if fields != [] {
      FirstFits(fields[1..], native, target, english);
    }
  }

  /** Whether a key held by `holder` is taken over by `f`. */
  predicate Yields(holder: Option<Field>, f: Field) {
    holder.None? || (English(f) && !English(holder.value))
  }

  /** One more field: it takes its key over when it is the first, or the first in English. */
  lemma WinnerAppend(fields: seq<Field>, f: Field, native: set<string>, target: Target)
    ensures Winner(fields + [f], native, target)
         == if TargetOf(f, native) == target && Yields(Winner(fields, native, target), f) then Some(f)
            else Winner(fields, native, target)
  {
    FirstAppend(fields, f, native, target, true);
    FirstAppend(fields, f, native, target, false);
    FirstFits(fields, native, target, true);
    FirstFits(fields, native, target, false);
  }

  type Locales = map<string, Option<string>>

  /** The body holds, for every native key some field feeds, the winner's value, and nothing else. */
  ghost predicate NativeIs(body: map<string, Value>, locales: Locales, fields: seq<Field>, native: set<string>) {
    forall key: string :: NativeAt(body, locales, Winner(fields, native, Native(key)), key)
  }

  ghost predicate NativeAt(body: map<string, Value>, locales: Locales, winner: Option<Field>, key: string) {
    match winner
    case None => key !in body && key !in locales
    case Some(f) => key in body && body[key] == f.value && key in locales && locales[key] == f.locale
  }

  /** The metadata keys in the order they first appear. */
  function MetaOrder(fields: seq<Field>, native: set<string>): seq<string> {
    if fields == [] then []
    else
      var before := MetaOrder(fields[..|fields| - 1], native);
      match TargetOf(fields[|fields| - 1], native)
      case Metadatum(key) => if key in before then before else before + [key]
      case _ => before
  }

  function Keys(metaData: seq<Meta>): (r: seq<string>)
    ensures |r| == |metaData| && forall i :: 0 <= i < |r| ==> r[i] == metaData[i].key
  {
    seq(|metaData|, i requires 0 <= i < |metaData| => metaData[i].key)
  }

  ghost predicate MetaAt(m: Meta, locales: Locales, winner: Option<Field>) {
    winner.Some? && m.value == winner.value.value && m.key in locales && locales[m.key] == winner.value.locale
  }

  /** One entry per metadata key, in first-appearance order, holding the winner's value. */
  ghost predicate MetaIs(metaData: seq<Meta>, locales: Locales, fields: seq<Field>, native: set<string>) {
    && Keys(metaData) == MetaOrder(fields, native)
    && (forall key :: key in locales ==> key in Keys(metaData))
    && forall i :: 0 <= i < |metaData| ==>
         MetaAt(metaData[i], locales, Winner(fields, native, Metadatum(metaData[i].key)))
  }

  function OnlyFilters(fields: seq<Field>, native: set<string>): seq<Field> {
    if fields == [] then []
    else
      var last := fields[|fields| - 1];
      OnlyFilters(fields[..|fields| - 1], native) + if TargetOf(last, native) == Filters then [last] else []
  }

  /** `tags.add(tag)` for every tag in turn. */
  function AddAll(tags: seq<string>, more: seq<string>): seq<string>
    decreases |more|
  {
    if more == [] then tags
    else AddAll(if more[0] in tags then tags else tags + [more[0]], more[1..])
  }

  function AllTags(fields: seq<Field>, native: set<string>): seq<string> {
    if fields == [] then []
    else
      var last := fields[|fields| - 1];
      var before := AllTags(fields[..|fields| - 1], native);
      if TargetOf(last, native) == Tags then AddAll(before, TagValues(last.value)) else before
  }

  ghost predicate Feeds(fields: seq<Field>, native: set<string>, target: Target) {
    exists f :: f in fields && TargetOf(f, native) == target
  }

  lemma {:induction false} MetaOrderIsUnique(fields: seq<Field>, native: set<string>)
    ensures forall i, j :: 0 <= i < j < |MetaOrder(fields, native)| ==>
              MetaOrder(fields, native)[i] != MetaOrder(fields, native)[j]
    ensures forall key :: key in MetaOrder(fields, native) <==> Feeds(fields, native, Metadatum(key))
  {
    if fields != [] {
      var before, last := fields[..|fields| - 1], fields[|fields| - 1];
      MetaOrderIsUnique(before, native);
      assert fields == before + [last];
      forall key ensures key in MetaOrder(fields, native) <==> Feeds(fields, native, Metadatum(key)) {
        if Feeds(before, native, Metadatum(key)) {
          var f :| f in before && TargetOf(f, native) == Metadatum(key);
          assert f in fields;
        }
        if TargetOf(last, native) == Metadatum(key) {
          assert last in fields;
        }
      }
    }
  }

  /** Later fields only append keys: the order is that of first appearance. */
  lemma {:induction false} MetaOrderGrows(fields: seq<Field>, n: nat, native: set<string>)
    requires n <= |fields|
    ensures MetaOrder(fields[..n], native) <= MetaOrder(fields, native)
    decreases |fields|
  {
    if n < |fields| {
      var before := fields[..|fields| - 1];
      MetaOrderGrows(before, n, native);
      assert before[..n] == fields[..n];
    } else {
      assert fields[..n] == fields;
    }
  }

  lemma {:induction false} WinnerExists(fields: seq<Field>, native: set<string>, target: Target)
    ensures Winner(fields, native, target).Some? <==> Feeds(fields, native, target)
  {
    FirstFits(fields, native, target, true);
    FirstFits(fields, native, target, false);
  }

  lemma NativeStep(body: map<string, Value>, locales: Locales, fields: seq<Field>, f: Field, native: set<string>)
    requires NativeIs(body, locales, fields, native)
    ensures match TargetOf(f, native)
            case Native(key) =>
              if Yields(Winner(fields, native, Native(key)), f)
              then NativeIs(body[key := f.value], locales[key := f.locale], fields + [f], native)
              else NativeIs(body, locales, fields + [f], native)
            case _ => NativeIs(body, locales, fields + [f], native)
  {
    forall key: string
      ensures Winner(fields + [f], native, Native(key))
           == if TargetOf(f, native) == Native(key) && Yields(Winner(fields, native, Native(key)), f) then Some(f)
              else Winner(fields, native, Native(key))
      ensures NativeAt(body, locales, Winner(fields, native, Native(key)), key)
    {
      WinnerAppend(fields, f, native, Native(key));
    }
  }

  /** A field for something else than metadata leaves the metadata as specified. */
  lemma MetaSkip(metaData: seq<Meta>, locales: Locales, fields: seq<Field>, f: Field, native: set<string>)
    requires MetaIs(metaData, locales, fields, native)
    requires match TargetOf(f, native)
             case Metadatum(key) => !Yields(Winner(fields, native, Metadatum(key)), f)
             case _ => true
    ensures MetaIs(metaData, locales, fields + [f], native)
  {
    assert (fields + [f])[..|fields|] == fields;
    forall i | 0 <= i < |metaData|
      ensures MetaAt(metaData[i], locales, Winner(fields + [f], native, Metadatum(metaData[i].key)))
    {
      WinnerAppend(fields, f, native, Metadatum(metaData[i].key));
    }
    if TargetOf(f, native).Metadatum? {
      MetaOrderIsUnique(fields, native);
      WinnerExists(fields, native, TargetOf(f, native));
    }
  }

  /** A new metadata key is appended. */
  lemma MetaPush(metaData: seq<Meta>, locales: Locales, fields: seq<Field>, f: Field, native: set<string>, key: string)
    requires MetaIs(metaData, locales, fields, native)
    requires TargetOf(f, native) == Metadatum(key) && key !in Keys(metaData)
    ensures MetaIs(metaData + [Meta(key, f.value)], locales[key := f.locale], fields + [f], native)
  {
    var after := metaData + [Meta(key, f.value)];
    assert (fields + [f])[..|fields|] == fields;
    assert Keys(after) == Keys(metaData) + [key];
    forall i | 0 <= i < |after|
      ensures MetaAt(after[i], locales[key := f.locale], Winner(fields + [f], native, Metadatum(after[i].key)))
    {
      WinnerAppend(fields, f, native, Metadatum(after[i].key));
      if i < |metaData| {
        assert Keys(metaData)[i] == metaData[i].key;
      } else {
        MetaOrderIsUnique(fields, native);
        WinnerExists(fields, native, Metadatum(key));
      }
    }
  }

  /** A field in English takes over an entry that was not. */
  lemma MetaReplace(metaData: seq<Meta>, locales: Locales, fields: seq<Field>, f: Field, native: set<string>,
                    key: string, at: nat)
    requires MetaIs(metaData, locales, fields, native)
    requires TargetOf(f, native) == Metadatum(key) && at < |metaData| && metaData[at].key == key
    requires Yields(Winner(fields, native, Metadatum(key)), f)
    ensures MetaIs(metaData[at := Meta(key, f.value)], locales[key := f.locale], fields + [f], native)
  {
    var after := metaData[at := Meta(key, f.value)];
    assert (fields + [f])[..|fields|] == fields;
    assert Keys(metaData)[at] == key;
    assert Keys(after) == Keys(metaData);
    forall i | 0 <= i < |after|
      ensures MetaAt(after[i], locales[key := f.locale], Winner(fields + [f], native, Metadatum(after[i].key)))
    {
      WinnerAppend(fields, f, native, Metadatum(after[i].key));
      if i != at {
        MetaOrderIsUnique(fields, native);
        assert Keys(metaData)[i] == metaData[i].key != key;
      }
    }
  }

  /** The noted locale tells whether the holder of a metadata key gives way. */
  lemma HolderLocale(metaData: seq<Meta>, locales: Locales, fields: seq<Field>, f: Field, native: set<string>,
                     key: string)
    requires MetaIs(metaData, locales, fields, native) && key in Keys(metaData)
    ensures Yields(Winner(fields, native, Metadatum(key)), f)
       <==> English(f) && !(key in locales && locales[key] == Some("en"))
  {
    var at :| 0 <= at < |metaData| && Keys(metaData)[at] == key;
    assert MetaAt(metaData[at], locales, Winner(fields, native, Metadatum(metaData[at].key)));
  }

  /** The collections `appendCatalogFields` fills in place. */
  class CatalogFold {
    var body: map<string, Value>
    var locales: Locales
    var metaData: seq<Meta>
    var metaLocales: Locales
    var filterable: seq<Field>
    var tags: seq<string>

    constructor ()
      ensures body == map[] && locales == map[] && metaData == [] && metaLocales == map[]
      ensures filterable == [] && tags == []
    {
      body, locales, metaData, metaLocales, filterable, tags := map[], map[], [], map[], [], [];
    }

    /** Everything is what its specification says of the fields so far. */
    ghost predicate Folded(fields: seq<Field>, native: set<string>)
      reads this
    {
      && NativeIs(body, locales, fields, native)
      && MetaIs(metaData, metaLocales, fields, native)
      && filterable == OnlyFilters(fields, native)
      && tags == AllTags(fields, native)
    }

    method AddNativeField(f: Field, key: string)
      modifies this`body, this`locales
      ensures var takes := key !in old(body)
                           || (English(f) && !(key in old(locales) && old(locales)[key] == Some("en")));
              && body == (if takes then old(body)[key := f.value] else old(body))
              && locales == (if takes then old(locales)[key := f.locale] else old(locales))
    {
      var current := if key in locales then locales[key] else None;
      if key !in body || (f.locale == Some("en") && current != Some("en")) {
        body := body[key := f.value];
        locales := locales[key := f.locale];
      }
    }

    /** `findIndex` */
    method FindMeta(key: string) returns (at: int)
      ensures at == -1 <==> key !in Keys(metaData)
      ensures -1 <= at < |metaData|
      ensures at >= 0 ==> metaData[at].key == key
    {
      at := 0;
      while at < |metaData| && metaData[at].key != key
        invariant 0 <= at <= |metaData|
        invariant forall i :: 0 <= i < at ==> metaData[i].key != key
      {
        at := at + 1;
      }
      if at == |metaData| {
        at := -1;
      } else {
        assert Keys(metaData)[at] == key;
      }
    }

    method AddMetaField(f: Field, key: string)
      modifies this`metaData, this`metaLocales
      ensures key !in Keys(old(metaData)) ==>
                metaData == old(metaData) + [Meta(key, f.value)] && metaLocales == old(metaLocales)[key := f.locale]
      ensures key in Keys(old(metaData)) ==>
                if English(f) && !(key in old(metaLocales) && old(metaLocales)[key] == Some("en"))
                then exists at :: 0 <= at < |old(metaData)| && old(metaData)[at].key == key
                       && metaData == old(metaData)[at := Meta(key, f.value)]
                       && metaLocales == old(metaLocales)[key := f.locale]
                else metaData == old(metaData) && metaLocales == old(metaLocales)
    {
      var current := if key in metaLocales then metaLocales[key] else None;
      var existing := FindMeta(key);
      if existing == -1 || (f.locale == Some("en") && current != Some("en")) {
        if existing == -1 {
          metaData := metaData + [Meta(key, f.value)];
        } else {
          metaData := metaData[existing := Meta(key, f.value)];
        }
        metaLocales := metaLocales[key := f.locale];
      }
    }

    method AddTags(more: seq<string>)
      modifies this`tags
      ensures tags == AddAll(old(tags), more)
    {
      var i := 0;
      while i < |more|
        invariant 0 <= i <= |more|
        invariant AddAll(tags, more[i..]) == AddAll(old(tags), more)
      {
        assert more[i..][1..] == more[i + 1..];
        if more[i] !in tags {
          tags := tags + [more[i]];
        }
        i := i + 1;
      }
    }

    /** Folds the fields, up to the first one that needs a remote key and has none. */
    method AppendCatalogFields(fields: seq<Field>, native: set<string>) returns (r: Result<bool, string>)
      requires body == map[] && locales == map[] && metaData == [] && metaLocales == map[]
      requires filterable == [] && tags == []
      modifies this
      ensures r.Ok? <==> !Feeds(fields, native, Keyless)
      ensures r.Ok? ==> Folded(fields, native) && (r.value <==> Feeds(fields, native, Tags))
      ensures r.Err? ==> exists f :: First(fields, native, Keyless, false) == Some(f) && r.error == f.path
    {
      var hasTagField := false;
      var i := 0;
      while i < |fields|
        invariant 0 <= i <= |fields|
        invariant Folded(fields[..i], native)
        invariant First(fields[..i], native, Keyless, false) == None
        invariant hasTagField <==> Feeds(fields[..i], native, Tags)
      {
        ghost var done, rest := fields[..i], fields[i + 1..];
        assert fields[..i + 1] == done + [fields[i]];
        FirstAppend(done, fields[i], native, Keyless, false);
        var target := TargetOf(fields[i], native);
        if target == Keyless {
          assert fields == done + [fields[i]] + rest;
          FirstOf(done, fields[i], rest, native);
          FirstFits(fields, native, Keyless, false);
          return Err(fields[i].path);
        }
        AddField(done, fields[i], native);
        hasTagField := hasTagField || target == Tags;
        i := i + 1;
      }
      assert fields[..i] == fields;
      FirstFits(fields, native, Keyless, false);
      return Ok(hasTagField);
    }

    /** One turn of the loop, for a field that needs no remote key or has one. */
    method AddField(ghost done: seq<Field>, f: Field, native: set<string>)
      requires Folded(done, native) && TargetOf(f, native) != Keyless
      modifies this
      ensures Folded(done + [f], native)
    {
      assert (done + [f])[..|done|] == done;
      match TargetOf(f, native) {
        case Filters =>
          filterable := filterable + [f];
          NativeStep(body, locales, done, f, native);
          MetaSkip(metaData, metaLocales, done, f, native);
        case Tags =>
          AddTags(TagValues(f.value));
          NativeStep(body, locales, done, f, native);
          MetaSkip(metaData, metaLocales, done, f, native);
        case Native(key) =>
          MetaSkip(metaData, metaLocales, done, f, native);
          AddOneNative(done, f, native, key);
        case Metadatum(key) =>
          NativeStep(body, locales, done, f, native);
          AddOneMeta(done, f, native, key);
      }
    }

    /** `AddNativeField` keeps the native values as specified. */
    method AddOneNative(ghost done: seq<Field>, f: Field, ghost native: set<string>, key: string)
      requires NativeIs(body, locales, done, native)
      requires TargetOf(f, native) == Native(key)
      modifies this`body, this`locales
      ensures NativeIs(body, locales, done + [f], native)
    {
      NativeStep(body, locales, done, f, native);
      assert NativeAt(body, locales, Winner(done, native, Native(key)), key);
      AddNativeField(f, key);
    }

    /** `AddMetaField` keeps the metadata as specified. */
    method AddOneMeta(ghost done: seq<Field>, f: Field, ghost native: set<string>, key: string)
      requires MetaIs(metaData, metaLocales, done, native)
      requires TargetOf(f, native) == Metadatum(key)
      modifies this`metaData, this`metaLocales
      ensures MetaIs(metaData, metaLocales, done + [f], native)
    {
      ghost var entries, before := metaData, metaLocales;
      AddMetaField(f, key);
      if key !in Keys(entries) {
        MetaPush(entries, before, done, f, native, key);
      } else {
        HolderLocale(entries, before, done, f, native, key);
        if Yields(Winner(done, native, Metadatum(key)), f) {
          var at :| 0 <= at < |entries| && entries[at].key == key && metaData == entries[at := Meta(key, f.value)];
          MetaReplace(entries, before, done, f, native, key, at);
        } else {
          MetaSkip(entries, before, done, f, native);
        }
      }
    }
  }

  lemma FirstOf(done: seq<Field>, f: Field, rest: seq<Field>, native: set<string>)
    requires First(done, native, Keyless, false) == None && TargetOf(f, native) == Keyless
    ensures First(done + [f] + rest, native, Keyless, false) == Some(f)
  {
    if done == [] {
      assert ([] + [f] + rest)[0] == f;
    } else {
      assert (done + [f] + rest)[1..] == done[1..] + [f] + rest;
      FirstOf(done[1..], f, rest, native);
    }
  }
}
