/** The `EventFunctions` user-defined functions: query an event's JSON text by its direct
    children or by JSONPath, and render each selected token as a string (or as a nested map). */
module EventFunctions {
  import opened Wrappers
  import opened JsonTokens
  import Text

  /** A selected token together with its `Path`. */
  datatype Located = Located(path: string, token: JToken)

  /** The parts of Json.NET the functions delegate to. */
  datatype JsonLibrary<O> = JsonLibrary(
    parse: string -> Result<JToken, string>,          // JToken.Parse
    selectTokens: (JToken, string) -> seq<Located>,   // JToken.SelectTokens
    toObject: (JToken, string) -> Result<O, string>)  // JToken.ToObject, by the target's full name

  /** The type `ConvertToken` converts to: `string`, `SqlMap<string, string>`,
      `SqlArray<string>`, or any other type, by its full name. */
  datatype Target = StringTarget | MapTarget | ArrayTarget | OtherTarget(fullName: string)

  /** `Type.FullName` of the target (the generic arguments are qualified with mscorlib). */
  function FullName(t: Target): string {
    match t
    case StringTarget => "System.String"
    case MapTarget =>
      "Microsoft.Analytics.Types.Sql.SqlMap`2[[" + MscorlibString + "],[" + MscorlibString + "]]"
    case ArrayTarget => "Microsoft.Analytics.Types.Sql.SqlArray`1[[" + MscorlibString + "]]"
    case OtherTarget(name) => name
  }

  const MscorlibString: string :=
    "System.String, mscorlib, Version=4.0.0.0, Culture=neutral, PublicKeyToken=b77a5c561934e089"

  /** A `SqlMap<string, string>` entry; `None` is a null value. */
  datatype Pair = Pair(key: string, value: Option<string>)

  /** What `ConvertToken` returns. */
  datatype Converted<O> =
    | Rendered(text: Option<string>)
    | Map(entries: seq<Pair>)
    | Items(items: seq<Option<string>>)
    | Library(object: O)

  predicate HasTarget<O>(c: Converted<O>, t: Target) {
    match t
    case StringTarget => c.Rendered?
    case MapTarget => c.Map?
    case ArrayTarget => c.Items?
    case OtherTarget(_) => c.Library?
  }

  /** How deep a conversion to the target can nest. */
  function Rank(t: Target): nat {
    if t.MapTarget? || t.ArrayTarget? then 1 else 0
  }

  // ---------------------------------------------------------------------------------------------
  // Rendering a token

  /** The quote stripping applied to dates, time spans and GUIDs. */
  function StripQuotes(v: string): string {
    if |v| > 2 && v[0] == '"' && v[|v| - 1] == '"' then v[1..|v| - 1] else v
  }

  /** `GetTokenString`: `None` stands for a null string. */
  function GetTokenString(t: JToken): Option<string> {
    match t
    case Null => None
    case Undefined => None
    case String(s) => Some(s)
    case Integer(i) => Some(Text.Decimal(i as int))
    case Float(v) => Some(v.written)
    case Boolean(b) => Some(if b then "true" else "false")
    case Date(v) => Some(StripQuotes(v.written))
    case TimeSpan(v) => Some(StripQuotes(v.written))
    case Guid(v) => Some(StripQuotes(v.written))
    case Array(_) => Some(Compact(t))
    case Object(_) => Some(Compact(t))
  }

  /** The message of the `JsonSerializationException` that `ConvertToken` throws. */
  function SerializationMessage(path: string, tokenType: string, fullName: string): string {
    "Newtonsoft.Json failed to deserialize '" + path + "' from '" + tokenType + "' to '" + fullName + "'"
  }

  // ---------------------------------------------------------------------------------------------
  // Selecting tokens

  /** The direct children of a root: an object's property values (path: the name), an array's
      elements (path: `[i]`); a scalar has none. */
  function Children(root: JToken): seq<Located> {
    match root
    case Object(ps) => seq(|ps|, k requires 0 <= k < |ps| => Located(ps[k].name, ps[k].value))
    case Array(es) => seq(|es|, k requires 0 <= k < |es| => Located("[" + Text.Decimal(k) + "]", es[k]))
    case _ => []
  }

  /** `SelectChildren`: a non-empty path selects by JSONPath, otherwise the direct children. A
      null path is written as the empty string. */
  function SelectChildren<O>(lib: JsonLibrary<O>, root: JToken, path: string): seq<Located> {
    if path != "" then lib.selectTokens(root, path) else Children(root)
  }

  /** The parsed root; null or empty text is an empty object. `None` is a null string. */
  function Root<O>(lib: JsonLibrary<O>, json: Option<string>): Result<JToken, string> {
    if json.None? || json.value == "" then Ok(Object([])) else lib.parse(json.value)
  }

  // ---------------------------------------------------------------------------------------------
  // The mutually recursive core

  /** `ConvertToken`: renders strings, re-queries maps and arrays from the token's compact text,
      and hands every other target to the library; any failure becomes one message naming the
      token's path, its type and the target. */
  function ConvertToken<O>(lib: JsonLibrary<O>, loc: Located, target: Target): (r: Result<Converted<O>, string>)
    ensures target == StringTarget ==> r == Ok(Rendered(GetTokenString(loc.token)))
    ensures r.Ok? ==> HasTarget(r.value, target)
    ensures r.Err? ==> r.error == SerializationMessage(loc.path, TypeName(loc.token), FullName(target))
    decreases Rank(target), 0, 0
  {
    var failed := Err(SerializationMessage(loc.path, TypeName(loc.token), FullName(target)));
    match target
    case StringTarget => Ok(Rendered(GetTokenString(loc.token)))
    case MapTarget =>
      (match GetObject(lib, Some(Compact(loc.token)), []) {
        case Ok(entries) => Ok(Map(entries))
        case Err(_) => failed
      })
    case ArrayTarget =>
      (match GetArray(lib, Some(Compact(loc.token))) {
        case Ok(items) => Ok(Items(items))
        case Err(_) => failed
      })
    case OtherTarget(name) =>
      (match lib.toObject(loc.token, name) {
        case Ok(o) => Ok(Library(o))
        case Err(_) => failed
      })
  }

  /** `ApplyPath<string>`: each selected token's path with its string rendering. */
  function ApplyPath<O>(lib: JsonLibrary<O>, root: JToken, path: string): (r: seq<Pair>)
    ensures var locs := SelectChildren(lib, root, path);
            |r| == |locs|
            && forall k :: 0 <= k < |locs| ==> r[k] == Pair(locs[k].path, GetTokenString(locs[k].token))
    decreases 0, 1, 0
  {
    var locs := SelectChildren(lib, root, path);
    seq(|locs|, k requires 0 <= k < |locs| => Pair(locs[k].path, ConvertToken(lib, locs[k], StringTarget).value.text))
  }

  /** `paths.SelectMany(path => ApplyPath(root, path))`. */
  function ApplyPaths<O>(lib: JsonLibrary<O>, root: JToken, paths: seq<string>): seq<Pair>
    decreases 0, 2, |paths|
  {
    if |paths| == 0 then [] else ApplyPath(lib, root, paths[0]) + ApplyPaths(lib, root, paths[1..])
  }

  /** `GetObject<string>` (and `GetUnstructuredEvent`): with paths, the matches of every path in
      argument order; without, the root's children. */
  function GetObject<O>(lib: JsonLibrary<O>, json: Option<string>, paths: seq<string>): Result<seq<Pair>, string>
    decreases 0, 3, 0
  {
    match Root(lib, json)
    case Err(m) => Err(m)
    case Ok(root) => Ok(if |paths| > 0 then ApplyPaths(lib, root, paths) else ApplyPath(lib, root, ""))
  }

  /** `FetchElement<T>`'s conversions, stopping at the first that fails. */
  function ConvertEach<O>(lib: JsonLibrary<O>, locs: seq<Located>, target: Target): (r: Result<seq<Converted<O>>, string>)
    ensures r.Ok? ==> |r.value| == |locs| && forall k :: 0 <= k < |locs| ==> HasTarget(r.value[k], target)
    decreases Rank(target), 1, |locs|
  {
    if |locs| == 0 then Ok([])
    else match ConvertToken(lib, locs[0], target)
      case Err(m) => Err(m)
      case Ok(c) =>
        (match ConvertEach(lib, locs[1..], target) {
          case Err(m) => Err(m)
          case Ok(cs) => Ok([c] + cs)
        })
  }

  /** `GetArray<T>`: every child of the root, converted to the target. */
  function GetArrayOf<O>(lib: JsonLibrary<O>, json: Option<string>, target: Target): (r: Result<seq<Converted<O>>, string>)
    ensures r.Ok? ==> forall k :: 0 <= k < |r.value| ==> HasTarget(r.value[k], target)
    decreases Rank(target), 2, 0
  {
    match Root(lib, json)
    case Err(m) => Err(m)
    case Ok(root) => ConvertEach(lib, Children(root), target)
  }

  /** `GetArray`: the string rendering of every child. */
  function GetArray<O>(lib: JsonLibrary<O>, json: Option<string>): Result<seq<Option<string>>, string>
    decreases 0, 3, 0
  {
    match GetArrayOf(lib, json, StringTarget)
    case Err(m) => Err(m)
    case Ok(cs) => Ok(seq(|cs|, k requires 0 <= k < |cs| => cs[k].text))
  }

  /** `GetContext`: every child converted to a string map. */
  function GetContext<O>(lib: JsonLibrary<O>, json: Option<string>): Result<seq<seq<Pair>>, string>
    decreases 1, 3, 0
  {
    match GetArrayOf(lib, json, MapTarget)
    case Err(m) => Err(m)
    case Ok(cs) => Ok(seq(|cs|, k requires 0 <= k < |cs| => cs[k].entries))
  }

  // ---------------------------------------------------------------------------------------------
  // Properties

  /** Null or empty text is an empty object: no children, so every query without paths is empty
      and raises nothing. */
  lemma EmptyInputGivesEmptyResults<O>(lib: JsonLibrary<O>, json: Option<string>, paths: seq<string>)
    requires json.None? || json.value == ""
    requires forall k :: 0 <= k < |paths| ==> paths[k] == ""
    ensures GetObject(lib, json, paths) == Ok([])
    ensures GetArray(lib, json) == Ok([])
    ensures GetContext(lib, json) == Ok([])
  {
    assert Root(lib, json) == Ok(Object([]));
    assert Children(Object([])) == [];
    ApplyPathsOfEmptyPaths(lib, Object([]), paths);
    assert ConvertEach(lib, [], StringTarget) == Ok([]);
    assert ConvertEach(lib, [], MapTarget) == Ok([]);
    assert GetArrayOf(lib, json, StringTarget) == Ok([]);
    assert GetArrayOf(lib, json, MapTarget) == Ok([]);
    assert |GetArray(lib, json).value| == 0;
    assert |GetContext(lib, json).value| == 0;
  }

  lemma {:induction false} ApplyPathsOfEmptyPaths<O>(lib: JsonLibrary<O>, root: JToken, paths: seq<string>)
    requires Children(root) == []
    requires forall k :: 0 <= k < |paths| ==> paths[k] == ""
    ensures ApplyPaths(lib, root, paths) == []
    decreases |paths|
  {
    if |paths| > 0 {
      ApplyPathsOfEmptyPaths(lib, root, paths[1..]);
    }
  }

  /** Without paths, a root object gives one entry per property, in order: the property's name
      and its value rendered as a string. */
  lemma ObjectChildrenByName<O>(lib: JsonLibrary<O>, json: Option<string>, ps: seq<Property>)
    requires Root(lib, json) == Ok(Object(ps))
    ensures GetObject(lib, json, []).Ok?
    ensures var r := GetObject(lib, json, []).value;
            |r| == |ps| && forall k :: 0 <= k < |ps| ==> r[k] == Pair(ps[k].name, GetTokenString(ps[k].value))
  {
  }

  /** The matches of a list of paths are those of each path, concatenated in argument order. */
  lemma {:induction false} ApplyPathsConcatenates<O>(lib: JsonLibrary<O>, root: JToken, first: seq<string>, second: seq<string>)
    ensures ApplyPaths(lib, root, first + second) == ApplyPaths(lib, root, first) + ApplyPaths(lib, root, second)
    decreases |first|
  {
    if |first| > 0 {
      assert (first + second)[0] == first[0];
      assert (first + second)[1..] == first[1..] + second;
      ApplyPathsConcatenates(lib, root, first[1..], second);
    } else {
      assert first + second == second;
    }
  }

  /** An empty path falls back to the plain children: each empty path contributes the same entries
      as a query without paths. */
  lemma EmptyPathFallsBackToChildren<O>(lib: JsonLibrary<O>, json: Option<string>, before: seq<string>, after: seq<string>)
    requires Root(lib, json).Ok?
    ensures var root := Root(lib, json).value;
            GetObject(lib, json, before + [""] + after).value
            == ApplyPaths(lib, root, before) + GetObject(lib, json, []).value + ApplyPaths(lib, root, after)
  {
    var root := Root(lib, json).value;
    ApplyPathsConcatenates(lib, root, before + [""], after);
    ApplyPathsConcatenates(lib, root, before, [""]);
    assert ApplyPaths(lib, root, [""]) == ApplyPath(lib, root, "") by {
      assert ApplyPaths(lib, root, [""][1..]) == [];
    }
  }

  /** `GetArray` renders the children in document order: an array's elements, an object's
      property values. */
  lemma ArrayChildrenInOrder<O>(lib: JsonLibrary<O>, json: Option<string>)
    requires Root(lib, json).Ok?
    ensures GetArray(lib, json).Ok?
    ensures var cs := Children(Root(lib, json).value);
            var r := GetArray(lib, json).value;
            |r| == |cs| && forall k :: 0 <= k < |cs| ==> r[k] == GetTokenString(cs[k].token)
  {
    ConvertEachToStrings(lib, Children(Root(lib, json).value));
  }

  lemma {:induction false} ConvertEachToStrings<O>(lib: JsonLibrary<O>, locs: seq<Located>)
    ensures ConvertEach(lib, locs, StringTarget).Ok?
    ensures var r := ConvertEach(lib, locs, StringTarget).value;
            |r| == |locs| && forall k :: 0 <= k < |locs| ==> r[k] == Rendered(GetTokenString(locs[k].token))
    decreases |locs|
  {
    if |locs| > 0 {
      ConvertEachToStrings(lib, locs[1..]);
      assert forall k :: 1 <= k < |locs| ==> locs[k] == locs[1..][k - 1];
    }
  }

  /** When the library parses each element's compact text back to the element, `GetContext`
      gives one map per element, in order, each equal to `GetObject` of that element. */
  lemma ContextMapsPerElement<O>(lib: JsonLibrary<O>, json: Option<string>, es: seq<JToken>)
    requires Root(lib, json) == Ok(Array(es))
    requires forall k :: 0 <= k < |es| ==> lib.parse(Compact(es[k])) == Ok(es[k])
    ensures GetContext(lib, json).Ok?
    ensures var r := GetContext(lib, json).value;
            |r| == |es|
            && forall k :: 0 <= k < |es| ==>
                 Ok(r[k]) == GetObject(lib, Some(Compact(es[k])), [])
                 && r[k] == ApplyPath(lib, es[k], "")
  {
    var locs := Children(Array(es));
    forall k | 0 <= k < |es|
      ensures Root(lib, Some(Compact(es[k]))) == Ok(es[k])
    {
      CompactNonEmpty(es[k]);
    }
    ConvertEachToMaps(lib, locs);
    var cs := ConvertEach(lib, locs, MapTarget).value;
    assert GetArrayOf(lib, json, MapTarget) == Ok(cs);
    var r := GetContext(lib, json).value;
    forall k | 0 <= k < |es|
      ensures Ok(r[k]) == GetObject(lib, Some(Compact(es[k])), []) && r[k] == ApplyPath(lib, es[k], "")
    {
      assert locs[k].token == es[k] && r[k] == cs[k].entries;
    }
  }

  lemma {:induction false} ConvertEachToMaps<O>(lib: JsonLibrary<O>, locs: seq<Located>)
    requires forall k :: 0 <= k < |locs| ==> Root(lib, Some(Compact(locs[k].token))) == Ok(locs[k].token)
    ensures ConvertEach(lib, locs, MapTarget).Ok?
    ensures var r := ConvertEach(lib, locs, MapTarget).value;
            |r| == |locs| && forall k :: 0 <= k < |locs| ==> r[k] == Map(ApplyPath(lib, locs[k].token, ""))
    decreases |locs|
  {
    if |locs| > 0 {
      assert forall k :: 1 <= k < |locs| ==> locs[k] == locs[1..][k - 1];
      ConvertEachToMaps(lib, locs[1..]);
      MapOfReparseable(lib, locs[0]);
      var rest := ConvertEach(lib, locs[1..], MapTarget).value;
      assert ConvertEach(lib, locs, MapTarget).value == [Map(ApplyPath(lib, locs[0].token, ""))] + rest;
    }
  }

  lemma MapOfReparseable<O>(lib: JsonLibrary<O>, loc: Located)
    requires Root(lib, Some(Compact(loc.token))) == Ok(loc.token)
    ensures ConvertToken(lib, loc, MapTarget) == Ok(Map(ApplyPath(lib, loc.token, "")))
  {
    assert GetObject(lib, Some(Compact(loc.token)), []) == Ok(ApplyPath(lib, loc.token, ""));
  }

  /** A conversion failure inside `GetContext` is reported for the first element whose compact
      text the library cannot parse, by that element's `[i]` path, its type and the map type. */
  lemma {:induction false} ContextFailureNamesElement<O>(lib: JsonLibrary<O>, locs: seq<Located>)
    requires ConvertEach(lib, locs, MapTarget).Err?
    ensures exists k :: 0 <= k < |locs| && Root(lib, Some(Compact(locs[k].token))).Err?
                     && (forall j :: 0 <= j < k ==> Root(lib, Some(Compact(locs[j].token))).Ok?)
                     && ConvertEach(lib, locs, MapTarget).error
                        == SerializationMessage(locs[k].path, TypeName(locs[k].token), FullName(MapTarget))
    decreases |locs|
  {
    if ConvertToken(lib, locs[0], MapTarget).Ok? {
      assert Root(lib, Some(Compact(locs[0].token))).Ok?;
      ContextFailureNamesElement(lib, locs[1..]);
      var k :| 0 <= k < |locs[1..]| && Root(lib, Some(Compact(locs[1..][k].token))).Err?
               && (forall j :: 0 <= j < k ==> Root(lib, Some(Compact(locs[1..][j].token))).Ok?)
               && ConvertEach(lib, locs[1..], MapTarget).error
                  == SerializationMessage(locs[1..][k].path, TypeName(locs[1..][k].token), FullName(MapTarget));
      assert locs[1..][k] == locs[k + 1];
      forall j | 1 <= j < k + 1
        ensures Root(lib, Some(Compact(locs[j].token))).Ok?
      {
        assert locs[j] == locs[1..][j - 1];
      }
    }
  }

  /** The error message shows the path, the token's type and the target, never the value: two
      tokens of one type at one path fail with the same message. */
  lemma SerializationMessageHidesValue<O>(lib: JsonLibrary<O>, a: Located, b: Located, target: Target)
    requires a.path == b.path && TypeName(a.token) == TypeName(b.token)
    requires ConvertToken(lib, a, target).Err? && ConvertToken(lib, b, target).Err?
    ensures ConvertToken(lib, a, target).error == ConvertToken(lib, b, target).error
  {
  }

  /** Only `ToObject` and the nested queries can fail: a conversion to a string never does, and a
      conversion to a map fails exactly when the token's compact text does not parse. */
  lemma ConversionFailsOnlyInLibrary<O>(lib: JsonLibrary<O>, loc: Located)
    ensures ConvertToken(lib, loc, StringTarget).Ok?
    ensures ConvertToken(lib, loc, MapTarget).Err? <==> lib.parse(Compact(loc.token)).Err?
  {
    CompactNonEmpty(loc.token);
  }

  /** Quote stripping removes exactly one surrounding pair from a quoted text longer than two
      characters, and leaves every other text, including `""` itself, unchanged. */
  lemma StripQuotesRemovesOnePair(s: string)
    ensures |s| > 0 ==> StripQuotes("\"" + s + "\"") == s
    ensures StripQuotes("\"\"") == "\"\""
    ensures StripQuotes(s) == s || (|s| > 2 && s[0] == '"' && s[|s| - 1] == '"' && "\"" + StripQuotes(s) + "\"" == s)
  {
    if |s| > 2 && s[0] == '"' && s[|s| - 1] == '"' {
      assert "\"" + s[1..|s| - 1] + "\"" == s;
    }
  }

  /** A float renders on its own as `JsonConvert.ToString` writes it, but inside a container as
      the JSON writer writes it: a non-finite float is bare `NaN` alone and quoted `"NaN"` in an
      array. */
  lemma FloatRenderingByPlace(v: LibraryValue)
    requires v.written == "NaN" && v.compact == "\"NaN\""
    ensures GetTokenString(Float(v)) == Some("NaN")
    ensures GetTokenString(Array([Float(v)])) == Some("[\"NaN\"]")
  {
    var es := [Float(v)];
    var parts := seq(|es|, k requires 0 <= k < |es| => Compact(es[k]));
    assert parts == [v.compact];
    assert Text.Join(",", parts) == v.compact;
    assert "[" + v.compact + "]" == "[\"NaN\"]";
  }

  /** Integers render as decimal text that reads back as the same integer. */
  lemma IntegerTextRoundTrip(i: int64)
    ensures GetTokenString(Integer(i)).Some?
    ensures Text.ParseDecimal(GetTokenString(Integer(i)).value) == Some(i as int)
  {
    Text.DecimalRoundTrip(i as int);
  }

  /** Strings render as themselves, and containers as compact JSON text, whose string values
      decode back through the writer's escaping. */
  lemma StringRendering(s: string)
    ensures GetTokenString(String(s)) == Some(s)
    ensures GetTokenString(Array([String(s)])) == Some("[" + Quote(s) + "]")
    ensures Unescape(Escape(s)) == Some(s)
  {
    OneStringArrayText(s);
    EscapeRoundTrip(s);
  }

  lemma OneStringArrayText(s: string)
    ensures GetTokenString(Array([String(s)])) == Some("[" + Quote(s) + "]")
  {
    var es := [String(s)];
    var parts := seq(|es|, k requires 0 <= k < |es| => Compact(es[k]));
    assert parts == [Quote(s)];
    assert Text.Join(",", parts) == Quote(s);
  }

  /** The array in `TestGetArray`: four strings come back as those four strings, in order. */
  lemma GetArrayOfFourStrings<O>(lib: JsonLibrary<O>, json: string)
    requires lib.parse(json) == Ok(Array([String("hello"), String("world"), String("test"), String("precise")]))
    requires json != ""
    ensures GetArray(lib, Some(json)) == Ok([Some("hello"), Some("world"), Some("test"), Some("precise")])
  {
    ArrayChildrenInOrder(lib, Some(json));
    var r := GetArray(lib, Some(json)).value;
    var cs := Children(lib.parse(json).value);
    assert |r| == 4;
    assert r[0] == GetTokenString(cs[0].token) == Some("hello");
    assert r[1] == GetTokenString(cs[1].token) == Some("world");
    assert r[2] == GetTokenString(cs[2].token) == Some("test");
    assert r[3] == GetTokenString(cs[3].token) == Some("precise");
    assert r == [Some("hello"), Some("world"), Some("test"), Some("precise")];
  }

  /** The event in `TestGetUnstructuredEvent`: scalars render as JSON text and the nested array
      of one class name as its compact text. */
  lemma GetObjectOfLinkClick<O>(lib: JsonLibrary<O>, json: string, className: string, twentyPointTwo: LibraryValue)
    requires className == "foreground"
    requires twentyPointTwo.written == "20.2"
    requires json != ""
    requires lib.parse(json) == Ok(LinkClick(className, twentyPointTwo))
    ensures GetObject(lib, Some(json), []) == Ok([
              Pair("targetUrl", Some("http://www.example.com")),
              Pair("elementClasses", Some("[\"foreground\"]")),
              Pair("elementId", Some("exampleLink")),
              Pair("boolField", Some("true")),
              Pair("intField", Some("1")),
              Pair("floatField", Some("20.2"))])
  {
    var ps := LinkClick(className, twentyPointTwo).properties;
    ObjectChildrenByName(lib, Some(json), ps);
    LinkClickRendering(className, twentyPointTwo);
    var r := GetObject(lib, Some(json), []).value;
    assert r == [r[0], r[1], r[2], r[3], r[4], r[5]];
  }

  function LinkClick(className: string, twentyPointTwo: LibraryValue): JToken {
    Object([
      Property("targetUrl", String("http://www.example.com")),
      Property("elementClasses", Array([String(className)])),
      Property("elementId", String("exampleLink")),
      Property("boolField", Boolean(true)),
      Property("intField", Integer(1)),
      Property("floatField", Float(twentyPointTwo))])
  }

  lemma LinkClickRendering(className: string, twentyPointTwo: LibraryValue)
    requires className == "foreground"
    requires twentyPointTwo.written == "20.2"
    ensures var ps := LinkClick(className, twentyPointTwo).properties;
            |ps| == 6
            && GetTokenString(ps[0].value) == Some("http://www.example.com")
            && GetTokenString(ps[1].value) == Some("[\"foreground\"]")
            && GetTokenString(ps[2].value) == Some("exampleLink")
            && GetTokenString(ps[3].value) == Some("true")
            && GetTokenString(ps[4].value) == Some("1")
            && GetTokenString(ps[5].value) == Some("20.2")
  {
    assert forall k :: 0 <= k < |className| ==> PlainChar(className[k]);
    PlainStringArrayText(className);
    assert "[\"" + className + "\"]" == "[\"foreground\"]";
    assert Text.Digits(1) == "1";
  }

  /** An array holding one plain string renders as that string quoted in brackets. */
  lemma PlainStringArrayText(name: string)
    requires forall k :: 0 <= k < |name| ==> PlainChar(name[k])
    ensures GetTokenString(Array([String(name)])) == Some("[\"" + name + "\"]")
  {
    EscapeLeavesPlainText(name);
    OneStringArrayText(name);
    assert "[" + Quote(name) + "]" == "[\"" + name + "\"]";
  }
}
