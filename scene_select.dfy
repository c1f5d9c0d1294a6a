/**
 * The level chooser: the raw level list is normalised to name/path pairs,
 * a level is looked up by its path, and the initially selected path is
 * chosen.
 */
module SceneSelect {
  import opened Wrappers
  import opened Text
  import opened Json

  /** A normalised entry: `{"name": …, "path": …}`. */
  datatype LevelEntry = LevelEntry(name: Json, path: Json)

  function HexDigit(d: nat): char
    requires d < 16
  {
    if d < 10 then ('0' as int + d) as char else ('a' as int + d - 10) as char
  }

  /** The last `width` hexadecimal digits of `n`, lower case, zero-padded. */
  function Hex(n: nat, width: nat): (r: string)
    ensures |r| == width
  {
    if width == 0 then [] else Hex(n / 16, width - 1) + [HexDigit(n % 16)]
  }

  /** The quote `repr` puts around a string: `"` when it holds `'` and no `"`, otherwise `'`. */
  function QuoteOf(s: string): char {
    if '\'' in s && '"' !in s then '"' else '\''
  }

  /** One character as it appears inside the quotes of a string's `repr`. */
  function EscapeChar(c: char, quote: char): string {
    if c == quote || c == '\\' then ['\\', c]
    else if c == '\t' then "\\t"
    else if c == '\n' then "\\n"
    else if c == '\r' then "\\r"
    else if IsPrintableChar(c) then [c]
    else if c as int < 0x100 then "\\x" + Hex(c as int, 2)
    else if c as int < 0x1_0000 then "\\u" + Hex(c as int, 4)
    else "\\U" + Hex(c as int, 8)
  }

  function EscapeAll(s: string, quote: char): string {
    if s == [] then [] else EscapeChar(s[0], quote) + EscapeAll(s[1..], quote)
  }

  /** `repr()` of a string. */
  function StrRepr(s: string): (r: string)
    ensures |r| >= 2 && r[0] == QuoteOf(s) && r[|r| - 1] == QuoteOf(s)
  {
    [QuoteOf(s)] + EscapeAll(s, QuoteOf(s)) + [QuoteOf(s)]
  }

  /** A string of printable characters without quotes or backslashes is its own text between single quotes. */
  lemma {:induction false} PlainStrRepr(s: string)
    requires forall i :: 0 <= i < |s| ==> IsPrintableChar(s[i]) && s[i] != '\'' && s[i] != '\\'
    ensures StrRepr(s) == "'" + s + "'"
  {
    assert QuoteOf(s) == '\'';
    PlainEscapes(s);
  }

  lemma {:induction false} PlainEscapes(s: string)
    requires forall i :: 0 <= i < |s| ==> IsPrintableChar(s[i]) && s[i] != '\'' && s[i] != '\\'
    ensures EscapeAll(s, '\'') == s
  {
    if s != [] {
      assert s[0] != '\t' && s[0] != '\n' && s[0] != '\r';
      PlainEscapes(s[1..]);
      assert s == [s[0]] + s[1..];
    }
  }

  /**
   * `repr()` of a value: Python's literal syntax for `None`, booleans,
   * integers, strings and lists; an empty table is `{}`.
   */
  function Repr(j: Json): (r: string)
    ensures j.JList? ==> |r| >= 2 && r[0] == '[' && r[|r| - 1] == ']'
    ensures j.JStr? ==> r == StrRepr(j.s)
    decreases j, 1
  {
    match j
    case JNull => "None"
    case JBool(b) => if b then "True" else "False"
    case JInt(i) => if i < 0 then "-" + Decimal(-i) else Decimal(i)
    case JStr(s) => StrRepr(s)
    case JList(items) => "[" + ReprItems(items) + "]"
    case JDict(fields) => if fields == map[] then "{}" else "{...}"
  }

  /** The items' `repr()`s separated by `, `. */
  function ReprItems(items: seq<Json>): string
    decreases items, 0
  {
    if items == [] then []
    else if |items| == 1 then Repr(items[0])
    else Repr(items[0]) + ", " + ReprItems(items[1..])
  }

  /** `str()` of a non-dict level item: a string is itself, anything else its `repr()`. */
  function Str(j: Json): (r: string)
    ensures j.JStr? ==> r == j.s
    ensures !j.JStr? ==> r == Repr(j)
  {
    if j.JStr? then j.s else Repr(j)
  }

  /** One item: a dict needs a truthy `path` or `name`; anything else is its own name and path. */
  function NormalizeItem(item: Json): (r: Option<LevelEntry>)
    ensures item.JDict? ==> (r.Some? <==> Truthy(Or(Get(item.fields, "path", JNull), Get(item.fields, "name", JNull))))
    ensures item.JDict? && r.Some? ==> Truthy(r.value.path) && Truthy(r.value.name)
    ensures !item.JDict? ==> r == Some(LevelEntry(JStr(Str(item)), JStr(Str(item))))
  {
    match item
    case JDict(fields) =>
      var path := Or(Get(fields, "path", JNull), Get(fields, "name", JNull));
      if !Truthy(path) then None
      else Some(LevelEntry(Or(Get(fields, "name", JNull), path), path))
    case _ => Some(LevelEntry(JStr(Str(item)), JStr(Str(item))))
  }

  /** A list item is named and addressed by its `repr()`: `[]` and `['a']`. */
  lemma ListItemsUseRepr()
    ensures NormalizeItem(JList([])) == Some(LevelEntry(JStr("[]"), JStr("[]")))
    ensures NormalizeItem(JList([JStr("a")])) == Some(LevelEntry(JStr("['a']"), JStr("['a']")))
  {
    assert ReprItems([]) == [];
    assert Str(JList([])) == "[" + [] + "]" == "[]";
    PlainStrRepr("a");
    assert Repr(JStr("a")) == "'a'";
    assert ReprItems([JStr("a")]) == "'a'";
    assert Str(JList([JStr("a")])) == "[" + "'a'" + "]" == "['a']";
  }

  /** The entries a list of items yields, in input order. */
  function Normalized(items: seq<Json>): (r: seq<LevelEntry>)
    ensures |r| <= |items|
  {
    if items == [] then []
    else
      match NormalizeItem(items[0])
      case None => Normalized(items[1..])
      case Some(e) => [e] + Normalized(items[1..])
  }

  /** One step of `Normalized` from position `i`. */
  lemma NormalizedStep(items: seq<Json>, i: nat)
    requires i < |items|
    ensures Normalized(items[i..]) ==
      if NormalizeItem(items[i]).None? then Normalized(items[i + 1..])
      else [NormalizeItem(items[i]).value] + Normalized(items[i + 1..])
  {
    assert items[i..][1..] == items[i + 1..];
  }

  /** `_normalize_levels`: `None` (or any falsy input) is an empty list. */
  method NormalizeLevels(levels: Option<seq<Json>>) returns (normalized: seq<LevelEntry>)
    ensures levels.None? ==> normalized == []
    ensures levels.Some? ==> normalized == Normalized(levels.value)
  {
    var items := if levels.Some? then levels.value else [];
    normalized := [];
    for i := 0 to |items|
      invariant Normalized(items) == normalized + Normalized(items[i..])
    {
      var entry := NormalizeItem(items[i]);
      NormalizedStep(items, i);
      if entry.None? {
        continue;
      }
      assert normalized + ([entry.value] + Normalized(items[i + 1..])) ==
        (normalized + [entry.value]) + Normalized(items[i + 1..]);
      normalized := normalized + [entry.value];
    }
    assert items[|items|..] == [];
    assert normalized + [] == normalized;
  }

  /** A normalised entry as the dict the dialog stores. */
  function AsItem(e: LevelEntry): Json {
    JDict(map["name" := e.name, "path" := e.path])
  }

  function AsItems(es: seq<LevelEntry>): (r: seq<Json>)
    ensures |r| == |es| && forall k :: 0 <= k < |es| ==> r[k] == AsItem(es[k])
  {
    seq(|es|, k requires 0 <= k < |es| => AsItem(es[k]))
  }

  /**
   * Normalising is stable: feeding the entries back in gives the same
   * entries, as long as every path is truthy. (A non-dict item whose `str()`
   * is empty gives an entry with an empty path, which a second pass drops.)
   */
  lemma {:induction false} NormalizeStable(items: seq<Json>)
    requires forall k :: 0 <= k < |Normalized(items)| ==> Truthy(Normalized(items)[k].path)
    ensures Normalized(AsItems(Normalized(items))) == Normalized(items)
  {
    var es := Normalized(items);
    NamesFollowPaths(items);
    NormalizeAsItems(es);
  }

  /** An entry whose path is truthy has a truthy name. */
  lemma {:induction false} NamesFollowPaths(items: seq<Json>)
    ensures forall k :: 0 <= k < |Normalized(items)| && Truthy(Normalized(items)[k].path) ==>
      Truthy(Normalized(items)[k].name)
    decreases |items|
  {
    if items != [] {
      NamesFollowPaths(items[1..]);
    }
  }

  lemma {:induction false} NormalizeAsItems(es: seq<LevelEntry>)
    requires forall k :: 0 <= k < |es| ==> Truthy(es[k].path)
    requires forall k :: 0 <= k < |es| ==> Truthy(es[k].name)
    ensures Normalized(AsItems(es)) == es
    decreases |es|
  {
    var items := AsItems(es);
    if es != [] {
      NormalizeAsItems(es[1..]);
      assert items[1..] == AsItems(es[1..]);
      assert NormalizeItem(items[0]) == Some(es[0]);
      assert es == [es[0]] + es[1..];
    }
  }

  /** `_get_level_by_path`: the first entry with an equal path; a falsy path finds nothing. */
  method GetLevelByPath(levels: seq<LevelEntry>, path: Json) returns (r: Option<LevelEntry>)
    ensures !Truthy(path) ==> r == None
    ensures Truthy(path) && r.None? ==> forall k :: 0 <= k < |levels| ==> levels[k].path != path
    ensures r.Some? ==>
      exists k :: 0 <= k < |levels| && r.value == levels[k] && levels[k].path == path &&
        forall i :: 0 <= i < k ==> levels[i].path != path
  {
    if !Truthy(path) {
      return None;
    }
    for k := 0 to |levels|
      invariant forall i :: 0 <= i < k ==> levels[i].path != path
    {
      if levels[k].path == path {
        return Some(levels[k]);
      }
    }
    return None;
  }

  /** The `selected_level` the dialog opens with: the current level, else the first path, else `None`. */
  function InitialSelection(levels: seq<LevelEntry>, current: Json): (r: Option<Json>)
    ensures Truthy(current) ==> r == Some(current)
    ensures !Truthy(current) && levels != [] ==> r == Some(levels[0].path)
    ensures !Truthy(current) && levels == [] ==> r == None
  {
    if Truthy(current) then Some(current)
    else if levels != [] then Some(levels[0].path)
    else None
  }

  /**
   * Without a current level, the initial selection resolves to the first
   * entry, since every normalised dict entry has a truthy path.
   */
  lemma InitialSelectionIsFirstEntry(items: seq<Json>, current: Json)
    requires !Truthy(current) && Normalized(items) != [] && items[0].JDict?
    requires NormalizeItem(items[0]).Some?
    ensures InitialSelection(Normalized(items), current) == Some(NormalizeItem(items[0]).value.path)
    ensures Truthy(InitialSelection(Normalized(items), current).value)
  {
  }
}
