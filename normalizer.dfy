/** The recursive JSON normalizer of the extractor (`ParseObject`, `ParseArray`): it turns a JSON
    object into a dictionary and a JSON array into a list, recursing into nested containers and
    typing every scalar by its own token type. `Normalize` is the value-level specification; the
    methods fill the mutable `Dictionary` and `ObjectList` exactly as the source does, and are
    proved to produce it. */
module Normalizer {
  import opened JsonTokens

  /** The .NET objects that end up inside `SqlMap<string, object>` and `SqlArray<object>`. */
  datatype Value =
    | NullRef                        // a null reference (`(string)` of a JSON null, a null `bool?`, ...)
    | Bool(b: bool)
    | Int(i: int32)                  // `int?`, only from the fixed-field casts
    | Long(l: int64)                 // `long?`
    | Double(d: LibraryValue)        // `double?`, kept abstract
    | DateTime(d: LibraryValue)      // `DateTime?`, kept abstract
    | Str(s: string)
    | SqlArray(items: seq<Value>)
    | SqlMap(entries: seq<Entry>)
    | SqlMapArray(maps: seq<MapValue>)

  /** One `SqlMap<string, object>` inside a `SqlArray<SqlMap<string, object>>`. */
  datatype MapValue = MapValue(entries: seq<Entry>)

  newtype int32 = x: int | -0x8000_0000 <= x < 0x8000_0000

  datatype Entry = Entry(key: string, value: Value)

  function Keys(es: seq<Entry>): seq<string> {
    seq(|es|, k requires 0 <= k < |es| => es[k].key)
  }

  // ---------------------------------------------------------------------------------------------
  // Dictionary<string, object>: insertion-ordered entries, `dict[key] = value` replaces in place

  /** `dict[key] = value`: an existing key keeps its place and takes the new value; a new key is
      appended. */
  function Put(es: seq<Entry>, key: string, value: Value): (r: seq<Entry>)
    ensures |r| == if key in Keys(es) then |es| else |es| + 1
    decreases |es|
  {
    assert |es| > 0 ==> Keys(es) == [es[0].key] + Keys(es[1..]);
    if |es| == 0 then [Entry(key, value)]
    else if es[0].key == key then [Entry(key, value)] + es[1..]
    else [es[0]] + Put(es[1..], key, value)
  }

  /** The entries after `dict[k] = v` for each pair of `pairs` in turn. */
  function Fill(es: seq<Entry>, pairs: seq<Entry>): seq<Entry>
    decreases |pairs|
  {
    if |pairs| == 0 then es
    else Put(Fill(es, pairs[..|pairs| - 1]), pairs[|pairs| - 1].key, pairs[|pairs| - 1].value)
  }

  class Dictionary {
    var entries: seq<Entry>

    constructor ()
      ensures entries == []
    {
      entries := [];
    }

    method Set(key: string, value: Value)
      modifies this
      ensures entries == Put(old(entries), key, value)
    {
      entries := Put(entries, key, value);
    }
  }

  /** `List<object>`. */
  class ObjectList {
    var items: seq<Value>

    constructor ()
      ensures items == []
    {
      items := [];
    }

    method Add(value: Value)
      modifies this
      ensures items == old(items) + [value]
    {
      items := items + [value];
    }
  }

  // ---------------------------------------------------------------------------------------------
  // The specification

  /** The scalar cases of the source's switch: `(bool?)`, `(double?)`, `(long?)`, `(DateTime?)`,
      and `(string)` for strings and every other token type. */
  function Scalar(t: JToken): Value
    requires !t.Object? && !t.Array?
  {
    match t
    case Boolean(b) => Bool(b)
    case Float(v) => Double(v)
    case Integer(i) => Long(i)
    case Date(v) => DateTime(v)
    case String(s) => Str(s)
    case TimeSpan(v) => Str(v.text)
    case Guid(v) => Str(v.text)
    case Null => NullRef
    case Undefined => NullRef
  }

  function Normalize(t: JToken): Value
    decreases t, 2
  {
    match t
    case Object(ps) => SqlMap(NormalizedMap(t))
    case Array(es) => SqlArray(seq(|es|, k requires 0 <= k < |es| => Normalize(es[k])))
    case _ => Scalar(t)
  }

  /** One entry per property, named as the property, holding its normalized value. */
  function NormalizedPairs(obj: JObject): seq<Entry>
    decreases obj, 0
  {
    var ps := obj.properties;
    seq(|ps|, k requires 0 <= k < |ps| => Entry(ps[k].name, Normalize(ps[k].value)))
  }

  /** The entries `ParseObject` leaves in a fresh dictionary. */
  function NormalizedMap(obj: JObject): seq<Entry>
    decreases obj, 1
  {
    Fill([], NormalizedPairs(obj))
  }

  // ---------------------------------------------------------------------------------------------
  // The source's methods

  lemma FillStep(es: seq<Entry>, pairs: seq<Entry>, i: nat)
    requires i < |pairs|
    ensures Fill(es, pairs[..i + 1]) == Put(Fill(es, pairs[..i]), pairs[i].key, pairs[i].value)
  {
    assert pairs[..i + 1][..i] == pairs[..i];
  }

  /** `ParseObject(dict, obj)`: writes every property of `obj`, normalized, into `dict`. */
  method ParseObject(dict: Dictionary, obj: JObject) returns (result: Dictionary)
    modifies dict
    ensures result == dict
    ensures dict.entries == Fill(old(dict.entries), NormalizedPairs(obj))
    decreases obj
  {
    var ps := obj.properties;
    ghost var pairs := NormalizedPairs(obj);
    for i := 0 to |ps|
      invariant dict.entries == Fill(old(dict.entries), pairs[..i])
    {
      var key := ps[i].name;
      var value := ps[i].value;
      assert ps[i] in ps;
      var normalized;
      if value.Object? {
        var inner := new Dictionary();
        var parsed := ParseObject(inner, value);
        normalized := SqlMap(parsed.entries);
      } else if value.Array? {
        var inner := new ObjectList();
        var parsed := ParseArray(inner, value);
        normalized := SqlArray(parsed.items);
      } else {
        normalized := Scalar(value);
      }
      assert normalized == Normalize(value);
      dict.Set(key, normalized);
      assert pairs[i] == Entry(key, normalized);
      FillStep(old(dict.entries), pairs, i);
    }
    assert pairs[..|ps|] == pairs;
    result := dict;
  }

  /** `ParseArray(list, array)`: appends every element of `array` (here `arr`), normalized, to `list`. */
  method ParseArray(list: ObjectList, arr: JArray) returns (result: ObjectList)
    modifies list
    ensures result == list
    ensures list.items == old(list.items) + Normalize(arr).items
    decreases arr
  {
    var es := arr.elements;
    ghost var items := Normalize(arr).items;
    for i := 0 to |es|
      invariant list.items == old(list.items) + items[..i]
    {
      var element := es[i];
      assert element in es;
      var normalized;
      if element.Object? {
        var inner := new Dictionary();
        var parsed := ParseObject(inner, element);
        normalized := SqlMap(parsed.entries);
      } else if element.Array? {
        var inner := new ObjectList();
        var parsed := ParseArray(inner, element);
        assert parsed.items == Normalize(element).items;
        normalized := SqlArray(parsed.items);
      } else {
        normalized := Scalar(element);
      }
      assert normalized == Normalize(element) == items[i];
      list.Add(normalized);
      assert items[..i + 1] == items[..i] + [items[i]];
    }
    assert items[..|es|] == items;
    result := list;
  }

  // ---------------------------------------------------------------------------------------------
  // Properties

  lemma {:induction false} PutNewKey(es: seq<Entry>, key: string, value: Value)
    requires key !in Keys(es)
    ensures Put(es, key, value) == es + [Entry(key, value)]
    decreases |es|
  {
    if |es| > 0 {
      assert Keys(es) == [es[0].key] + Keys(es[1..]);
      PutNewKey(es[1..], key, value);
      assert [es[0]] + (es[1..] + [Entry(key, value)]) == es + [Entry(key, value)];
    }
  }

  ghost predicate DistinctKeys(es: seq<Entry>) {
    forall i, j :: 0 <= i < j < |es| ==> es[i].key != es[j].key
  }

  /** Filling an empty dictionary from pairs with distinct keys keeps every pair, in order. */
  lemma {:induction false} FillDistinct(pairs: seq<Entry>)
    requires DistinctKeys(pairs)
    ensures Fill([], pairs) == pairs
    decreases |pairs|
  {
    if |pairs| > 0 {
      var n := |pairs| - 1;
      var front := pairs[..n];
      FillDistinct(front);
      assert pairs[n].key !in Keys(front) by {
        forall k | 0 <= k < |front| ensures Keys(front)[k] != pairs[n].key {
          assert front[k] == pairs[k];
        }
      }
      PutNewKey(front, pairs[n].key, pairs[n].value);
      assert front + [pairs[n]] == pairs;
    }
  }

  /** `ParseObject` on a JSON object yields a dictionary with exactly the object's property names,
      in order, each holding the normalized property value. */
  lemma NormalizedMapMatchesObject(obj: JObject)
    requires DistinctNames(obj.properties)
    ensures NormalizedMap(obj) == NormalizedPairs(obj)
    ensures |NormalizedMap(obj)| == |obj.properties|
    ensures forall k :: 0 <= k < |obj.properties| ==>
              NormalizedMap(obj)[k] == Entry(obj.properties[k].name, Normalize(obj.properties[k].value))
  {
    FillDistinct(NormalizedPairs(obj));
  }

  /** Tokens that normalization keeps apart: no `Undefined` (read like `Null`) and no `TimeSpan` or
      `Guid` (read as their text). */
  ghost predicate Plain(t: JToken)
    decreases t
  {
    match t
    case Undefined => false
    case TimeSpan(_) => false
    case Guid(_) => false
    case Array(es) => forall k :: 0 <= k < |es| ==> Plain(es[k])
    case Object(ps) => forall k :: 0 <= k < |ps| ==> Plain(ps[k].value)
    case _ => true
  }

  /** Reads a normalized value back as the token it came from. */
  function Denormalize(v: Value): JToken
    decreases v
  {
    match v
    case NullRef => Null
    case Bool(b) => Boolean(b)
    case Int(i) => Integer(i as int as int64)
    case Long(l) => Integer(l)
    case Double(d) => Float(d)
    case DateTime(d) => Date(d)
    case Str(s) => String(s)
    case SqlArray(items) => Array(seq(|items|, k requires 0 <= k < |items| => Denormalize(items[k])))
    case SqlMap(es) => Object(seq(|es|, k requires 0 <= k < |es| => Property(es[k].key, Denormalize(es[k].value))))
    case SqlMapArray(maps) => Array(seq(|maps|, k requires 0 <= k < |maps| =>
                                assert maps[k] in maps;
                                var es := maps[k].entries;
                                Object(seq(|es|, j requires 0 <= j < |es| =>
                                  assert es[j] in es;
                                  Property(es[j].key, Denormalize(es[j].value))))))
  }

  /** Normalization loses nothing on plain, well-formed JSON: every key, every element, their order
      and every scalar with its token type can be read back. */
  lemma {:induction false} NormalizeRoundTrip(t: JToken)
    requires WellFormed(t) && Plain(t)
    ensures Denormalize(Normalize(t)) == t
    decreases t
  {
    match t
    case Array(es) =>
      var items := Normalize(t).items;
      forall k | 0 <= k < |es| ensures Denormalize(items[k]) == es[k] {
        assert es[k] in es;
        NormalizeRoundTrip(es[k]);
      }
    case Object(ps) =>
      var entries := NormalizedMap(t);
      NormalizedMapMatchesObject(t);
      forall k | 0 <= k < |ps| ensures Property(entries[k].key, Denormalize(entries[k].value)) == ps[k] {
        assert ps[k] in ps;
        NormalizeRoundTrip(ps[k].value);
      }
    case _ =>
  }

  /** No 32-bit integer anywhere inside. */
  ghost predicate Without32BitInts(v: Value)
    decreases v
  {
    match v
    case Int(_) => false
    case SqlArray(items) => forall k :: 0 <= k < |items| ==> Without32BitInts(items[k])
    case SqlMap(es) => EntriesWithout32BitInts(es)
    case SqlMapArray(maps) => forall k :: 0 <= k < |maps| ==> (assert maps[k] in maps; EntriesWithout32BitInts(maps[k].entries))
    case _ => true
  }

  ghost predicate EntriesWithout32BitInts(es: seq<Entry>)
    decreases es
  {
    forall k :: 0 <= k < |es| ==> Without32BitInts(es[k].value)
  }

  lemma {:induction false} PutKeepsWithout32BitInts(es: seq<Entry>, key: string, value: Value)
    requires EntriesWithout32BitInts(es)
    requires Without32BitInts(value)
    ensures EntriesWithout32BitInts(Put(es, key, value))
    decreases |es|
  {
    if |es| > 0 && es[0].key != key {
      PutKeepsWithout32BitInts(es[1..], key, value);
      var r := Put(es, key, value);
      assert r == [es[0]] + Put(es[1..], key, value);
      assert forall k :: 1 <= k < |r| ==> r[k] == Put(es[1..], key, value)[k - 1];
    }
  }

  lemma {:induction false} FillKeepsWithout32BitInts(pairs: seq<Entry>)
    requires EntriesWithout32BitInts(pairs)
    ensures EntriesWithout32BitInts(Fill([], pairs))
    decreases |pairs|
  {
    if |pairs| > 0 {
      var n := |pairs| - 1;
      assert EntriesWithout32BitInts(pairs[..n]) by {
        forall k | 0 <= k < n ensures Without32BitInts(pairs[..n][k].value) {
          assert pairs[..n][k] == pairs[k];
        }
      }
      FillKeepsWithout32BitInts(pairs[..n]);
      PutKeepsWithout32BitInts(Fill([], pairs[..n]), pairs[n].key, pairs[n].value);
    }
  }

  /** Normalization types integers as 64-bit `long` at every depth, never as the 32-bit `int`
      of the fixed fields. */
  lemma {:induction false} NormalizeUses64BitInts(t: JToken)
    ensures Without32BitInts(Normalize(t))
    decreases t
  {
    match t
    case Array(es) =>
      var items := Normalize(t).items;
      forall k | 0 <= k < |es| ensures Without32BitInts(items[k]) {
        assert es[k] in es;
        NormalizeUses64BitInts(es[k]);
      }
    case Object(ps) =>
      var pairs := NormalizedPairs(t);
      forall k | 0 <= k < |ps| ensures Without32BitInts(pairs[k].value) {
        assert ps[k] in ps;
        NormalizeUses64BitInts(ps[k].value);
      }
      FillKeepsWithout32BitInts(pairs);
    case _ =>
  }
}
