/** The parsed JSON tree the core works on: Json.NET's `JToken` hierarchy as a closed sum over the
    token types the JSON parser produces (`JTokenType`), with the compact writer
    `JToken.ToString(Formatting.None)` and the string escaping it uses. */
module JsonTokens {
  import Text
  import opened Wrappers

  /** Json.NET keeps integer tokens as `long`; larger literals (held as `BigInteger`) are not modelled. */
  newtype int64 = x: int | -0x8000_0000_0000_0000 <= x < 0x8000_0000_0000_0000

  type NonEmptyString = s: string | |s| > 0 witness "0"

  /** A scalar whose text forms are fixed by .NET and Json.NET rather than by this code:
      `written` is what `JsonConvert.ToString` produces for it, quotes included for dates, time
      spans and GUIDs; `compact` is what the JSON writer behind `ToString(Formatting.None)`
      produces, which differs for the non-finite floats (bare `NaN` against quoted `"NaN"`);
      `text` is the value's own `ToString()`. */
  datatype LibraryValue = LibraryValue(written: NonEmptyString, compact: NonEmptyString, text: string)

  datatype JToken =
    | Null
    | Undefined
    | Boolean(b: bool)
    | Integer(i: int64)
    | Float(f: LibraryValue)
    | String(s: string)
    | Date(d: LibraryValue)
    | TimeSpan(t: LibraryValue)
    | Guid(g: LibraryValue)
    | Array(elements: seq<JToken>)
    | Object(properties: seq<Property>)

  datatype Property = Property(name: string, value: JToken)

  /** The static types `JObject` and `JArray` of the source's parameters. */
  type JObject = t: JToken | t.Object? witness Object([])
  type JArray = t: JToken | t.Array? witness Array([])

  /** `JTokenType.ToString()`. */
  function TypeName(t: JToken): string {
    match t
    case Null => "Null"
    case Undefined => "Undefined"
    case Boolean(_) => "Boolean"
    case Integer(_) => "Integer"
    case Float(_) => "Float"
    case String(_) => "String"
    case Date(_) => "Date"
    case TimeSpan(_) => "TimeSpan"
    case Guid(_) => "Guid"
    case Array(_) => "Array"
    case Object(_) => "Object"
  }

  ghost predicate DistinctNames(ps: seq<Property>) {
    forall i, j :: 0 <= i < j < |ps| ==> ps[i].name != ps[j].name
  }

  /** Every object in the tree has distinct property names, as a `JObject` guarantees. */
  ghost predicate WellFormed(t: JToken)
    decreases t
  {
    match t
    case Array(es) => forall i :: 0 <= i < |es| ==> WellFormed(es[i])
    case Object(ps) => DistinctNames(ps) && forall i :: 0 <= i < |ps| ==> WellFormed(ps[i].value)
    case _ => true
  }

  // ---------------------------------------------------------------------------------------------
  // String escaping of the JSON writer (double-quote mode, default escape handling)

  function HexDigit(d: nat): char
    requires d < 16
  {
    "0123456789abcdef"[d]
  }

  /** `\uXXXX` with four lower-case hexadecimal digits. */
  function UnicodeEscape(n: nat): string
    requires n < 0x1_0000
  {
    ['\\', 'u', HexDigit(n / 0x1000), HexDigit(n / 0x100 % 0x10), HexDigit(n / 0x10 % 0x10), HexDigit(n % 0x10)]
  }

  /** Characters the writer escapes with `\u`: control characters without a short form, and
      U+0085, U+2028, U+2029. */
  predicate NeedsUnicodeEscape(c: char) {
    (c < ' ' && c !in "\t\n\r\U{000C}\U{0008}") || c == '\U{0085}' || c == '\U{2028}' || c == '\U{2029}'
  }

  function EscapeChar(c: char): string {
    match c
    case '\t' => "\\t"
    case '\n' => "\\n"
    case '\r' => "\\r"
    case '\U{000C}' => "\\f"
    case '\U{0008}' => "\\b"
    case '\\' => "\\\\"
    case '"' => "\\\""
    case _ => if NeedsUnicodeEscape(c) then UnicodeEscape(c as int) else [c]
  }

  function Escape(s: string): string
    decreases |s|
  {
    if |s| == 0 then "" else EscapeChar(s[0]) + Escape(s[1..])
  }

  /** Printable text without quotes, backslashes or the three special separators is written as is. */
  predicate PlainChar(c: char) {
    ' ' <= c < '\U{0085}' && c != '"' && c != '\\'
  }

  lemma {:induction false} EscapeLeavesPlainText(s: string)
    requires forall k :: 0 <= k < |s| ==> PlainChar(s[k])
    ensures Escape(s) == s
    decreases |s|
  {
    if |s| > 0 {
      assert PlainChar(s[0]);
      assert EscapeChar(s[0]) == [s[0]];
      EscapeLeavesPlainText(s[1..]);
      assert s == [s[0]] + s[1..];
    }
  }

  /** A JSON string literal as the writer produces it. */
  function Quote(s: string): string {
    "\"" + Escape(s) + "\""
  }

  // ---------------------------------------------------------------------------------------------
  // Decoding escapes: the inverse of Escape, used to show that escaping loses nothing

  function HexValue(c: char): Option<nat> {
    if '0' <= c <= '9' then Some((c as int) - ('0' as int))
    else if 'a' <= c <= 'f' then Some((c as int) - ('a' as int) + 10)
    else None
  }

  function ShortEscapeChar(c: char): Option<char> {
    match c
    case 't' => Some('\t')
    case 'n' => Some('\n')
    case 'r' => Some('\r')
    case 'f' => Some('\U{000C}')
    case 'b' => Some('\U{0008}')
    case '\\' => Some('\\')
    case '"' => Some('"')
    case _ => None
  }

  function Unescape(s: string): Option<string>
    decreases |s|
  {
    if |s| == 0 then Some("")
    else if s[0] != '\\' then
      match Unescape(s[1..])
      case Some(r) => Some([s[0]] + r)
      case None => None
    else if |s| >= 2 && ShortEscapeChar(s[1]).Some? then
      match Unescape(s[2..])
      case Some(r) => Some([ShortEscapeChar(s[1]).value] + r)
      case None => None
    else if |s| >= 6 && s[1] == 'u' && HexValue(s[2]).Some? && HexValue(s[3]).Some?
            && HexValue(s[4]).Some? && HexValue(s[5]).Some? then
      var n := ((HexValue(s[2]).value * 16 + HexValue(s[3]).value) * 16 + HexValue(s[4]).value) * 16
               + HexValue(s[5]).value;
      if n < 0xD800 || 0xE000 <= n then
        match Unescape(s[6..])
        case Some(r) => Some([n as char] + r)
        case None => None
      else None
    else None
  }

  lemma HexDigitValue(d: nat)
    requires d < 16
    ensures HexValue(HexDigit(d)) == Some(d)
  {
  }

  lemma HexDigitsRecompose(n: nat)
    requires n < 0x1_0000
    ensures ((n / 0x1000 * 16 + n / 0x100 % 0x10) * 16 + n / 0x10 % 0x10) * 16 + n % 0x10 == n
  {
    var a, b, c := n / 0x10, n / 0x100, n / 0x1000;
    assert n == a * 16 + n % 16;
    assert b == a / 16 && a == b * 16 + a % 16;
    assert c == b / 16 && b == c * 16 + b % 16;
    assert a % 16 == n / 0x10 % 0x10 && b % 16 == n / 0x100 % 0x10;
  }

  /** The four digits of `\uXXXX` read back as the code they encode. */
  lemma UnicodeEscapeDigits(n: nat)
    requires n < 0x1_0000
    ensures var e := UnicodeEscape(n);
            HexValue(e[2]).Some? && HexValue(e[3]).Some? && HexValue(e[4]).Some? && HexValue(e[5]).Some?
            && ((HexValue(e[2]).value * 16 + HexValue(e[3]).value) * 16 + HexValue(e[4]).value) * 16
               + HexValue(e[5]).value == n
  {
    HexDigitValue(n / 0x1000);
    HexDigitValue(n / 0x100 % 0x10);
    HexDigitValue(n / 0x10 % 0x10);
    HexDigitValue(n % 0x10);
    HexDigitsRecompose(n);
  }

  /** Decoding `\uXXXX` gives back the code, for any code that is not a surrogate. */
  lemma UnicodeEscapeDecodes(n: nat, rest: string)
    requires n < 0xD800 || 0xE000 <= n < 0x1_0000
    ensures Unescape(UnicodeEscape(n) + rest) ==
            match Unescape(rest) case Some(r) => Some([n as char] + r) case None => None
  {
    var e := UnicodeEscape(n);
    var s := e + rest;
    UnicodeEscapeDigits(n);
    assert s[0] == '\\' && s[1] == 'u' && ShortEscapeChar(s[1]).None?;
    assert s[2] == e[2] && s[3] == e[3] && s[4] == e[4] && s[5] == e[5];
    assert s[6..] == rest;
  }

  lemma EscapeCharDecodes(c: char, rest: string)
    ensures Unescape(EscapeChar(c) + rest) ==
            match Unescape(rest) case Some(r) => Some([c] + r) case None => None
  {
    var s := EscapeChar(c) + rest;
    if NeedsUnicodeEscape(c) {
      assert EscapeChar(c) == UnicodeEscape(c as int);
      UnicodeEscapeDecodes(c as int, rest);
    } else if c in "\t\n\r\U{000C}\U{0008}\\\"" {
      assert s[2..] == rest;
    } else {
      assert EscapeChar(c) == [c];
      assert s[1..] == rest;
    }
  }

  /** Escaping is undone by decoding: the writer's string literals lose no character. */
  lemma {:induction false} EscapeRoundTrip(s: string)
    ensures Unescape(Escape(s)) == Some(s)
    decreases |s|
  {
    if |s| > 0 {
      EscapeRoundTrip(s[1..]);
      EscapeCharDecodes(s[0], Escape(s[1..]));
      assert [s[0]] + s[1..] == s;
    }
  }

  // ---------------------------------------------------------------------------------------------
  // The compact writer

  /** `JToken.ToString(Formatting.None)`: compact JSON text without whitespace. */
  function Compact(t: JToken): string
    decreases t
  {
    match t
    case Null => "null"
    case Undefined => "undefined"
    case Boolean(b) => if b then "true" else "false"
    case Integer(i) => Text.Decimal(i as int)
    case Float(v) => v.compact
    case String(s) => Quote(s)
    case Date(v) => v.compact
    case TimeSpan(v) => v.compact
    case Guid(v) => v.compact
    case Array(es) =>
      "[" + Text.Join(",", seq(|es|, k requires 0 <= k < |es| => Compact(es[k]))) + "]"
    case Object(ps) =>
      "{" + Text.Join(",", seq(|ps|, k requires 0 <= k < |ps| => Quote(ps[k].name) + ":" + Compact(ps[k].value))) + "}"
  }

  /** Compact text is never empty, so it never takes the null-or-empty shortcut when parsed again. */
  lemma CompactNonEmpty(t: JToken)
    ensures |Compact(t)| > 0
  {
    match t
    case Integer(i) => assert |Text.Digits(if i < 0 then -(i as int) else i as int)| > 0;
    case _ =>
  }
}
