/** The U-SQL extractor: for every input line it checks the output schema, transforms the line
    into an enriched-event JSON object and writes the event's properties into the output row,
    which it then yields. */
module EventExtractor {
  import opened Wrappers
  import opened JsonTokens
  import opened FieldRegistry
  import opened Normalizer
  import opened Schema
  import opened Exceptions
  import Text

  /** Why processing stops. */
  datatype Failure =
    | Extraction(exception: ExtractionException) // SnowplowEventExtractionException
    | ArgumentOutOfRange(column: string)         // Substring(0, 8) on a short column name
    | ParseFailure(message: string)              // JObject.Parse rejects the transformed text
    | InvalidCast                                // (JObject) applied to a non-object context element
    | CastFailure(message: string)               // a library cast such as (int?) refuses the token

  /** The library's explicit conversions `(bool?)`, `(int?)`, `(double?)`, `(DateTime?)` and
      `(string)` of a token, selected by the field's kind. */
  type Cast = (FieldType, JToken) -> Result<Value, string>
  /** `EventTransformer.Transform`: the JSON text of an event, or the transformer's messages. */
  type Transform = string -> Result<string, seq<string>>
  /** `JObject.Parse`: an object whose properties have distinct names. */
  type Parse = parse: string -> Result<JObject, string> | ParsesDistinctNames(parse)
    witness (json: string) => Err("")

  ghost predicate ParsesDistinctNames(parse: string -> Result<JObject, string>) {
    forall json :: parse(json).Ok? ==> DistinctNames(parse(json).value.properties)
  }

  /** The value a cast of a field's kind may give: `bool?`, `int?`, `double?`, `DateTime?` or
      `string`, where `NullRef` is null. Container kinds hold a map or an array. */
  predicate OfKind(v: Value, k: FieldType) {
    v.NullRef? ||
    match k
    case PropertyBoolean => v.Bool?
    case PropertyInt32 => v.Int?
    case PropertyDouble => v.Double?
    case PropertyDateTime => v.DateTime?
    case PropertyString => v.Str?
    case PropertySqlArray => v.SqlArray?
    case PropertySqlMap => v.SqlMap?
  }

  /** Each cast gives a value of the kind it converts to, as the explicit C# conversions do. */
  ghost predicate CastKeepsKinds(cast: Cast) {
    forall k, t :: IsScalar(k) && cast(k, t).Ok? ==> OfKind(cast(k, t).value, k)
  }

  /** The output row: its schema and the values set so far, by column name. */
  class Row {
    const schema: seq<Column>
    var values: map<string, Value>

    constructor (schema: seq<Column>)
      ensures this.schema == schema && values == map[]
    {
      this.schema := schema;
      values := map[];
    }

    method Set(name: string, value: Value)
      modifies this
      ensures values == old(values)[name := value]
    {
      values := values[name := value];
    }
  }

  // ---------------------------------------------------------------------------------------------
  // Specification of ExtractJson

  /** What writing one event property does to the row. */
  datatype Write = NoWrite | Write(value: Value) | Fail(failure: Failure)

  /** The text `$"{token}"` produces for a value token: `JValue.ToString()`. */
  function DisplayText(t: JToken): string {
    match t
    case Null => ""
    case Undefined => ""
    case Boolean(b) => if b then "True" else "False"
    case Integer(i) => Text.Decimal(i as int)
    case String(s) => s
    case Float(v) => v.text
    case Date(v) => v.text
    case TimeSpan(v) => v.text
    case Guid(v) => v.text
    case Array(_) => ""
    case Object(_) => ""
  }

  function UnexpectedValueMessage(p: Property): string {
    "Unexpected value " + DisplayText(p.value) + " encountered for field " + p.name
  }

  /** The maps a context array becomes, or `None` when an element is not an object. */
  function ContextMapsOf(arr: JArray): Option<seq<MapValue>> {
    var es := arr.elements;
    if forall k :: 0 <= k < |es| ==> es[k].Object? then
      Some(seq(|es|, k requires 0 <= k < |es| && es[k].Object? => MapValue(NormalizedMap(es[k]))))
    else None
  }

  function PropertyWrite(p: Property, cast: Cast): Write {
    if p.name in EnrichedEventFieldTypes then
      var kind := EnrichedEventFieldTypes[p.name];
      if IsScalar(kind) then
        match cast(kind, p.value)
        case Ok(v) => Write(v)
        case Err(m) => Fail(CastFailure(m))
      else NoWrite
    else if p.value.Array? then
      match ContextMapsOf(p.value)
      case Some(maps) => Write(SqlMapArray(maps))
      case None => Fail(InvalidCast)
    else if p.value.Object? then Write(SqlMap(NormalizedMap(p.value)))
    else Fail(Extraction(FromMessage(UnexpectedValueMessage(p))))
  }

  /** The row's values after one line, and the failure that stopped it, if any. */
  datatype LineOutcome = LineOutcome(values: map<string, Value>, failure: Option<Failure>)

  /** Writing the properties in order, stopping at the first failure with the earlier writes kept. */
  function Populate(values: map<string, Value>, props: seq<Property>, cast: Cast): LineOutcome
    decreases |props|
  {
    if |props| == 0 then LineOutcome(values, None)
    else match PropertyWrite(props[0], cast)
      case NoWrite => Populate(values, props[1..], cast)
      case Write(v) => Populate(values[props[0].name := v], props[1..], cast)
      case Fail(f) => LineOutcome(values, Some(f))
  }

  function ExtractedJson(values: map<string, Value>, json: string, parse: Parse, cast: Cast): LineOutcome {
    match parse(json)
    case Err(m) => LineOutcome(values, Some(ParseFailure(m)))
    case Ok(event) => Populate(values, event.properties, cast)
  }

  // ---------------------------------------------------------------------------------------------
  // ExtractJson

  /** The `foreach` over a context array, converting each element with `ParseObject`. */
  method ContextMaps(arr: JArray) returns (maps: Option<seq<MapValue>>)
    ensures maps == ContextMapsOf(arr)
  {
    var es := arr.elements;
    var mapList: seq<MapValue> := [];
    for i := 0 to |es|
      invariant |mapList| == i
      invariant forall k :: 0 <= k < i ==> es[k].Object? && mapList[k] == MapValue(NormalizedMap(es[k]))
    {
      var element := es[i];
      if !element.Object? {
        return None;
      }
      var dict := new Dictionary();
      dict := ParseObject(dict, element);
      mapList := mapList + [MapValue(dict.entries)];
    }
    assert forall k :: 0 <= k < |es| ==> es[k].Object?;
    assert mapList == seq(|es|, k requires 0 <= k < |es| && es[k].Object? => MapValue(NormalizedMap(es[k])));
    maps := Some(mapList);
  }

  method ExtractJson(json: string, output: Row, parse: Parse, cast: Cast) returns (failure: Option<Failure>)
    modifies output
    ensures ExtractedJson(old(output.values), json, parse, cast) == LineOutcome(output.values, failure)
  {
    var parsed := parse(json);
    if parsed.Err? {
      return Some(ParseFailure(parsed.error));
    }
    var props := parsed.value.properties;
    for i := 0 to |props|
      invariant Populate(old(output.values), props, cast) == Populate(output.values, props[i..], cast)
    {
      assert props[i..][1..] == props[i + 1..];
      var name := props[i].name;
      var value := props[i].value;
      if name in EnrichedEventFieldTypes {
        var kind := EnrichedEventFieldTypes[name];
        if IsScalar(kind) {
          var converted := cast(kind, value);
          if converted.Err? {
            return Some(CastFailure(converted.error));
          }
          output.Set(name, converted.value);
        }
      } else if value.Array? {
        var maps := ContextMaps(value);
        if maps.None? {
          return Some(InvalidCast);
        }
        output.Set(name, SqlMapArray(maps.value));
      } else if value.Object? {
        var dict := new Dictionary();
        dict := ParseObject(dict, value);
        output.Set(name, SqlMap(dict.entries));
      } else {
        return Some(Extraction(FromMessage(UnexpectedValueMessage(props[i]))));
      }
    }
    failure := None;
  }

  // ---------------------------------------------------------------------------------------------
  // Specification of Extract

  /** The failure the schema check raises, if any. */
  function SchemaFailure(schema: seq<Column>): Option<Failure> {
    match SchemaCheck(schema)
    case OutOfRange(c) => Some(ArgumentOutOfRange(c))
    case Checked(errors) => if |errors| > 0 then Some(Extraction(FromList(errors))) else None
  }

  /** One iteration of the line loop. */
  function ProcessLine(values: map<string, Value>, schema: seq<Column>, line: string,
                       transform: Transform, parse: Parse, cast: Cast): LineOutcome
  {
    if SchemaFailure(schema).Some? then LineOutcome(values, SchemaFailure(schema))
    else match transform(line)
      case Err(messages) => LineOutcome(values, Some(Extraction(FromList(messages))))
      case Ok(json) => ExtractedJson(values, json, parse, cast)
  }

  /** The rows yielded (each a snapshot of the row), the row's final values, and the failure that
      ended the enumeration, if any. */
  datatype RunOutcome = RunOutcome(rows: seq<map<string, Value>>, values: map<string, Value>, failure: Option<Failure>)

  function Prefixed(rows: seq<map<string, Value>>, o: RunOutcome): RunOutcome {
    RunOutcome(rows + o.rows, o.values, o.failure)
  }

  /** What one line does to the row, from the row before it. */
  type Step = (map<string, Value>, string) -> LineOutcome

  /** The line loop: each line's row is yielded, until the first line that fails. */
  function RunLines(step: Step, values: map<string, Value>, lines: seq<string>): RunOutcome
    decreases |lines|
  {
    if |lines| == 0 then RunOutcome([], values, None)
    else
      var o := step(values, lines[0]);
      if o.failure.Some? then RunOutcome([], o.values, o.failure)
      else Prefixed([o.values], RunLines(step, o.values, lines[1..]))
  }

  function LineStep(schema: seq<Column>, transform: Transform, parse: Parse, cast: Cast): Step {
    (values: map<string, Value>, line: string) => ProcessLine(values, schema, line, transform, parse, cast)
  }

  function ExtractRun(values: map<string, Value>, schema: seq<Column>, lines: seq<string>,
                      transform: Transform, parse: Parse, cast: Cast): RunOutcome
  {
    RunLines(LineStep(schema, transform, parse, cast), values, lines)
  }

  // ---------------------------------------------------------------------------------------------
  // Extract

  /** One pass of the `while` loop's body, up to the `yield`. */
  method ExtractLine(line: string, output: Row, transform: Transform, parse: Parse, cast: Cast)
    returns (failure: Option<Failure>)
    modifies output
    ensures ProcessLine(old(output.values), output.schema, line, transform, parse, cast)
            == LineOutcome(output.values, failure)
  {
    var checked := ValidateSchema(output.schema);
    match checked {
      case OutOfRange(c) =>
        return Some(ArgumentOutOfRange(c));
      case Checked(errors) =>
        if |errors| > 0 {
          return Some(Extraction(FromList(errors)));
        }
    }
    var transformed := transform(line);
    if transformed.Err? {
      return Some(Extraction(FromList(transformed.error)));
    }
    failure := ExtractJson(transformed.value, output, parse, cast);
  }

  method Extract(lines: seq<string>, output: Row, transform: Transform, parse: Parse, cast: Cast)
    returns (rows: seq<map<string, Value>>, failure: Option<Failure>)
    modifies output
    ensures ExtractRun(old(output.values), output.schema, lines, transform, parse, cast)
            == RunOutcome(rows, output.values, failure)
  {
    rows := [];
    var i := 0;
    while i < |lines|
      invariant 0 <= i <= |lines|
      invariant ExtractRun(old(output.values), output.schema, lines, transform, parse, cast)
                == Prefixed(rows, ExtractRun(output.values, output.schema, lines[i..], transform, parse, cast))
    {
      assert lines[i..][1..] == lines[i + 1..];
      ghost var before := output.values;
      var f := ExtractLine(lines[i], output, transform, parse, cast);
      if f.Some? {
        return rows, f;
      }
      assert ExtractRun(before, output.schema, lines[i..], transform, parse, cast)
             == Prefixed([output.values], ExtractRun(output.values, output.schema, lines[i + 1..], transform, parse, cast));
      rows := rows + [output.values];
      i := i + 1;
    }
    failure := None;
  }

  // ---------------------------------------------------------------------------------------------
  // Properties of ExtractJson

  /** The row after a property whose write does not fail. */
  function Apply(values: map<string, Value>, p: Property, w: Write): map<string, Value> {
    if w.Write? then values[p.name := w.value] else values
  }

  lemma PopulateStep(values: map<string, Value>, props: seq<Property>, cast: Cast)
    requires |props| > 0
    ensures var w := PropertyWrite(props[0], cast);
            Populate(values, props, cast)
            == if w.Fail? then LineOutcome(values, Some(w.failure))
               else Populate(Apply(values, props[0], w), props[1..], cast)
  {
  }

  /** A line's properties fail exactly when one of them cannot be written. */
  lemma {:induction false} PopulateFailsExactly(values: map<string, Value>, props: seq<Property>, cast: Cast)
    ensures Populate(values, props, cast).failure.None? <==>
              forall k :: 0 <= k < |props| ==> !PropertyWrite(props[k], cast).Fail?
    decreases |props|
  {
    if |props| > 0 {
      var w := PropertyWrite(props[0], cast);
      PopulateStep(values, props, cast);
      assert forall k :: 1 <= k < |props| ==> props[k] == props[1..][k - 1];
      if !w.Fail? {
        PopulateFailsExactly(Apply(values, props[0], w), props[1..], cast);
      }
    }
  }

  /** On failure, the first failing property's failure is the one reported, and the row keeps
      every write made before it. */
  lemma {:induction false} PopulateStopsAtFirstFailure(values: map<string, Value>, props: seq<Property>, cast: Cast)
    requires Populate(values, props, cast).failure.Some?
    ensures exists j :: 0 <= j < |props| && PropertyWrite(props[j], cast).Fail?
                     && Populate(values, props, cast).failure == Some(PropertyWrite(props[j], cast).failure)
                     && Populate(values, props[..j], cast) == LineOutcome(Populate(values, props, cast).values, None)
    decreases |props|
  {
    var w := PropertyWrite(props[0], cast);
    PopulateStep(values, props, cast);
    if w.Fail? {
      assert Populate(values, props[..0], cast) == LineOutcome(values, None);
    } else {
      var next := Apply(values, props[0], w);
      var rest := props[1..];
      PopulateStopsAtFirstFailure(next, rest, cast);
      var j :| 0 <= j < |rest| && PropertyWrite(rest[j], cast).Fail?
               && Populate(next, rest, cast).failure == Some(PropertyWrite(rest[j], cast).failure)
               && Populate(next, rest[..j], cast) == LineOutcome(Populate(next, rest, cast).values, None);
      PopulatePrefixStep(values, props, cast, j);
      assert props[j + 1] == rest[j];
    }
  }

  lemma PopulatePrefixStep(values: map<string, Value>, props: seq<Property>, cast: Cast, j: nat)
    requires j < |props| && !PropertyWrite(props[0], cast).Fail?
    ensures Populate(values, props[..j + 1], cast)
            == Populate(Apply(values, props[0], PropertyWrite(props[0], cast)), props[1..][..j], cast)
  {
    assert props[..j + 1][1..] == props[1..][..j];
    PopulateStep(values, props[..j + 1], cast);
  }

  /** A column no property writes keeps what the row held before the line, whether or not the
      line fails. */
  lemma {:induction false} PopulateKeepsUnwrittenColumns(values: map<string, Value>, props: seq<Property>, cast: Cast, name: string)
    requires forall k :: 0 <= k < |props| && props[k].name == name ==> !PropertyWrite(props[k], cast).Write?
    ensures name in Populate(values, props, cast).values <==> name in values
    ensures name in values ==> Populate(values, props, cast).values[name] == values[name]
    decreases |props|
  {
    if |props| > 0 {
      var w := PropertyWrite(props[0], cast);
      assert forall k :: 1 <= k < |props| ==> props[k] == props[1..][k - 1];
      if w.Write? {
        PopulateKeepsUnwrittenColumns(values[props[0].name := w.value], props[1..], cast, name);
      } else if w.NoWrite? {
        PopulateKeepsUnwrittenColumns(values, props[1..], cast, name);
      }
    }
  }

  /** After a line whose properties all succeed, every written property's column holds the value
      written for it, and the only columns added are those written. */
  lemma PopulateWritesEveryProperty(values: map<string, Value>, props: seq<Property>, cast: Cast)
    requires DistinctNames(props)
    requires Populate(values, props, cast).failure.None?
    ensures forall k :: 0 <= k < |props| && PropertyWrite(props[k], cast).Write? ==>
              props[k].name in Populate(values, props, cast).values
              && Populate(values, props, cast).values[props[k].name] == PropertyWrite(props[k], cast).value
    ensures forall name :: name in Populate(values, props, cast).values ==>
              name in values || exists k :: 0 <= k < |props| && props[k].name == name && PropertyWrite(props[k], cast).Write?
  {
    WrittenPropertiesLand(values, props, cast);
    OnlyWrittenColumnsAdded(values, props, cast);
  }

  lemma {:induction false} WrittenPropertiesLand(values: map<string, Value>, props: seq<Property>, cast: Cast)
    requires DistinctNames(props)
    requires Populate(values, props, cast).failure.None?
    ensures forall k :: 0 <= k < |props| && PropertyWrite(props[k], cast).Write? ==>
              props[k].name in Populate(values, props, cast).values
              && Populate(values, props, cast).values[props[k].name] == PropertyWrite(props[k], cast).value
    decreases |props|
  {
    if |props| > 0 {
      var w := PropertyWrite(props[0], cast);
      var rest := props[1..];
      PopulateStep(values, props, cast);
      var next := Apply(values, props[0], w);
      assert DistinctNames(rest) by {
        forall i, j | 0 <= i < j < |rest| ensures rest[i].name != rest[j].name {
          assert rest[i] == props[i + 1] && rest[j] == props[j + 1];
        }
      }
      WrittenPropertiesLand(next, rest, cast);
      if w.Write? {
        assert forall k :: 0 <= k < |rest| ==> rest[k].name != props[0].name by {
          forall k | 0 <= k < |rest| ensures rest[k].name != props[0].name {
            assert rest[k] == props[k + 1];
          }
        }
        PopulateKeepsUnwrittenColumns(next, rest, cast, props[0].name);
      }
      forall k | 1 <= k < |props| ensures props[k] == rest[k - 1] {}
    }
  }

  lemma {:induction false} OnlyWrittenColumnsAdded(values: map<string, Value>, props: seq<Property>, cast: Cast)
    requires Populate(values, props, cast).failure.None?
    ensures forall name :: name in Populate(values, props, cast).values ==>
              name in values || exists k :: 0 <= k < |props| && props[k].name == name && PropertyWrite(props[k], cast).Write?
    decreases |props|
  {
    if |props| > 0 {
      var w := PropertyWrite(props[0], cast);
      var rest := props[1..];
      PopulateStep(values, props, cast);
      var next := Apply(values, props[0], w);
      OnlyWrittenColumnsAdded(next, rest, cast);
      forall name | name in Populate(values, props, cast).values && name !in values
        ensures exists k :: 0 <= k < |props| && props[k].name == name && PropertyWrite(props[k], cast).Write?
      {
        if name in next {
          assert props[0].name == name && w.Write?;
        } else {
          var k :| 0 <= k < |rest| && rest[k].name == name && PropertyWrite(rest[k], cast).Write?;
          assert props[k + 1] == rest[k];
        }
      }
    }
  }

  /** A parsed event's properties have distinct names, so after an event whose properties all
      succeed, every written property's column holds the value written for it. */
  lemma ExtractedJsonWritesEveryProperty(values: map<string, Value>, json: string, parse: Parse, cast: Cast)
    requires ExtractedJson(values, json, parse, cast).failure.None?
    ensures parse(json).Ok?
    ensures var props := parse(json).value.properties;
            var out := ExtractedJson(values, json, parse, cast).values;
            forall k :: 0 <= k < |props| && PropertyWrite(props[k], cast).Write? ==>
              props[k].name in out && out[props[k].name] == PropertyWrite(props[k], cast).value
  {
    PopulateWritesEveryProperty(values, parse(json).value.properties, cast);
  }

  /** The value a column may hold: a registry field's value is of the field's kind, any other
      field's value a map or an array of maps. */
  predicate KindFits(name: string, v: Value) {
    if name in EnrichedEventFieldTypes then OfKind(v, EnrichedEventFieldTypes[name])
    else v.SqlMapArray? || v.SqlMap?
  }

  ghost predicate RowKeepsKinds(values: map<string, Value>) {
    forall name :: name in values ==> KindFits(name, values[name])
  }

  lemma WriteKeepsKind(p: Property, cast: Cast)
    requires CastKeepsKinds(cast)
    requires PropertyWrite(p, cast).Write?
    ensures KindFits(p.name, PropertyWrite(p, cast).value)
  {
  }

  /** With casts that give values of their kind, a line writes every column only with a value of
      that column's kind, whether or not the line fails. */
  lemma {:induction false} PopulateKeepsKinds(values: map<string, Value>, props: seq<Property>, cast: Cast)
    requires CastKeepsKinds(cast) && RowKeepsKinds(values)
    ensures RowKeepsKinds(Populate(values, props, cast).values)
    decreases |props|
  {
    if |props| > 0 {
      var w := PropertyWrite(props[0], cast);
      PopulateStep(values, props, cast);
      if !w.Fail? {
        if w.Write? {
          WriteKeepsKind(props[0], cast);
        }
        PopulateKeepsKinds(Apply(values, props[0], w), props[1..], cast);
      }
    }
  }

  /** The registry's container fields (`contexts`, `derived_contexts`, `unstruct_event`) are never
      written by a line, whatever the event holds. */
  lemma RegistryContainersNeverWritten(values: map<string, Value>, props: seq<Property>, cast: Cast, name: string)
    requires name in EnrichedEventFieldTypes && !IsScalar(EnrichedEventFieldTypes[name])
    ensures name in Populate(values, props, cast).values <==> name in values
    ensures name in values ==> Populate(values, props, cast).values[name] == values[name]
  {
    PopulateKeepsUnwrittenColumns(values, props, cast, name);
  }

  /** A property outside the registry holding an array of objects becomes one map per element,
      in element order, each with the element's keys in order and its values normalized; an array
      holding anything else fails the cast to an object. */
  lemma ContextArrayBecomesMaps(p: Property, cast: Cast)
    requires p.name !in EnrichedEventFieldTypes && p.value.Array?
    requires WellFormed(p.value)
    ensures var es := p.value.elements;
            if forall k :: 0 <= k < |es| ==> es[k].Object? then
              PropertyWrite(p, cast).Write? && PropertyWrite(p, cast).value.SqlMapArray?
              && var maps := PropertyWrite(p, cast).value.maps;
                 |maps| == |es|
                 && forall k :: 0 <= k < |es| ==>
                      |maps[k].entries| == |es[k].properties|
                      && forall j :: 0 <= j < |es[k].properties| ==>
                           maps[k].entries[j] == Entry(es[k].properties[j].name, Normalize(es[k].properties[j].value))
            else PropertyWrite(p, cast) == Fail(InvalidCast)
  {
    var es := p.value.elements;
    if forall k :: 0 <= k < |es| ==> es[k].Object? {
      forall k | 0 <= k < |es| ensures NormalizedMap(es[k]) == NormalizedPairs(es[k]) {
        assert WellFormed(es[k]);
        NormalizedMapMatchesObject(es[k]);
      }
    }
  }

  /** A property outside the registry holding an object becomes one map with the object's keys in
      order and its values normalized. */
  lemma UnstructObjectBecomesMap(p: Property, cast: Cast)
    requires p.name !in EnrichedEventFieldTypes && p.value.Object?
    requires WellFormed(p.value)
    ensures PropertyWrite(p, cast) == Write(SqlMap(NormalizedPairs(p.value)))
  {
    NormalizedMapMatchesObject(p.value);
  }

  /** Any other value outside the registry stops the line with a single-message extraction
      exception that shows the value and ends with the field's name. */
  lemma UnexpectedValueNamesField(p: Property, cast: Cast)
    requires p.name !in EnrichedEventFieldTypes && !p.value.Array? && !p.value.Object?
    ensures PropertyWrite(p, cast).Fail? && PropertyWrite(p, cast).failure.Extraction?
    ensures var e := PropertyWrite(p, cast).failure.exception;
            e.errorMessages == [UnexpectedValueMessage(p)]
            && Message(e) == UnexpectedValueMessage(p)
            && UnexpectedValueMessage(p)[|UnexpectedValueMessage(p)| - |p.name|..] == p.name
  {
  }

  // ---------------------------------------------------------------------------------------------
  // Properties of Extract

  /** The schema raises nothing exactly when every column conforms. */
  lemma SchemaAcceptedExactly(schema: seq<Column>)
    ensures SchemaFailure(schema).None? <==> forall k :: 0 <= k < |schema| ==> Conforms(schema[k])
  {
    OutOfRangeExactly(schema);
    if NoneOutOfRange(schema) {
      OneErrorPerOffendingColumn(schema);
    } else {
      var k :| 0 <= k < |schema| && !(schema[k].name in EnrichedEventFieldTypes || |schema[k].name| >= 8);
      assert !Conforms(schema[k]);
    }
  }

  /** A line under a schema that fails the check neither consults the transformer nor touches the
      row: the outcome mentions neither the line nor the transformer. */
  lemma BadSchemaStopsBeforeTransform(values: map<string, Value>, schema: seq<Column>, line: string,
                                      transform: Transform, parse: Parse, cast: Cast)
    requires exists k :: 0 <= k < |schema| && !Conforms(schema[k])
    ensures SchemaFailure(schema).Some?
    ensures ProcessLine(values, schema, line, transform, parse, cast) == LineOutcome(values, SchemaFailure(schema))
  {
    SchemaAcceptedExactly(schema);
  }

  /** A transformation failure is rethrown as an extraction exception carrying the transformer's
      messages unchanged, and the row is not touched. */
  lemma TransformFailureRethrown(values: map<string, Value>, schema: seq<Column>, line: string,
                                 transform: Transform, parse: Parse, cast: Cast)
    requires forall k :: 0 <= k < |schema| ==> Conforms(schema[k])
    requires transform(line).Err?
    ensures var o := ProcessLine(values, schema, line, transform, parse, cast);
            o.values == values && o.failure.Some? && o.failure.value.Extraction?
            && o.failure.value.exception.errorMessages == transform(line).error
            && Message(o.failure.value.exception) == Exceptions.JoinMessages(transform(line).error)
  {
    SchemaAcceptedExactly(schema);
  }

  /** The row state before line `k` of a run. */
  function StateBefore(values: map<string, Value>, rows: seq<map<string, Value>>, k: nat): map<string, Value>
    requires k <= |rows|
  {
    if k == 0 then values else rows[k - 1]
  }

  lemma ExtractRunStep(values: map<string, Value>, schema: seq<Column>, lines: seq<string>,
                       transform: Transform, parse: Parse, cast: Cast)
    requires |lines| > 0
    ensures var o := ProcessLine(values, schema, lines[0], transform, parse, cast);
            var r := ExtractRun(values, schema, lines, transform, parse, cast);
            if o.failure.Some? then r == RunOutcome([], o.values, o.failure)
            else r == Prefixed([o.values], ExtractRun(o.values, schema, lines[1..], transform, parse, cast))
  {
  }

  /** The facts about the line loop below hold for any step; the extractor's are instances. */
  lemma {:induction false} RowCount(step: Step, values: map<string, Value>, lines: seq<string>)
    ensures var r := RunLines(step, values, lines);
            |r.rows| <= |lines| && (r.failure.None? <==> |r.rows| == |lines|)
    decreases |lines|
  {
    if |lines| > 0 {
      var o := step(values, lines[0]);
      if o.failure.None? {
        RowCount(step, o.values, lines[1..]);
      }
    }
  }

  lemma {:induction false} RowAfterLine(step: Step, values: map<string, Value>, lines: seq<string>, k: nat)
    requires k < |RunLines(step, values, lines).rows|
    ensures var r := RunLines(step, values, lines);
            k < |lines| && step(StateBefore(values, r.rows, k), lines[k]) == LineOutcome(r.rows[k], None)
    decreases k
  {
    assert |lines| > 0;
    var o := step(values, lines[0]);
    var rest := RunLines(step, o.values, lines[1..]);
    var r := RunLines(step, values, lines);
    assert o.failure.None? && r.rows == [o.values] + rest.rows;
    if k > 0 {
      RowAfterLine(step, o.values, lines[1..], k - 1);
      assert StateBefore(values, r.rows, k) == StateBefore(o.values, rest.rows, k - 1);
      assert lines[k] == lines[1..][k - 1];
      assert r.rows[k] == rest.rows[k - 1];
    }
  }

  lemma {:induction false} RunEnd(step: Step, values: map<string, Value>, lines: seq<string>)
    ensures var r := RunLines(step, values, lines);
            |r.rows| <= |lines|
            && (r.failure.None? ==> r.values == StateBefore(values, r.rows, |r.rows|))
            && (r.failure.Some? ==>
                  |r.rows| < |lines| && step(StateBefore(values, r.rows, |r.rows|), lines[|r.rows|]) == LineOutcome(r.values, r.failure))
    decreases |lines|
  {
    RowCount(step, values, lines);
    if |lines| > 0 {
      var o := step(values, lines[0]);
      if o.failure.None? {
        var rest := RunLines(step, o.values, lines[1..]);
        RunEnd(step, o.values, lines[1..]);
        var r := RunLines(step, values, lines);
        assert r.rows == [o.values] + rest.rows;
        assert StateBefore(values, r.rows, |r.rows|) == StateBefore(o.values, rest.rows, |rest.rows|);
        if r.failure.Some? {
          assert lines[|r.rows|] == lines[1..][|rest.rows|];
        }
      }
    }
  }

  /** The enumeration yields at most one row per line, and completes exactly when every line
      yielded one. */
  lemma OneRowPerLine(values: map<string, Value>, schema: seq<Column>, lines: seq<string>,
                      transform: Transform, parse: Parse, cast: Cast)
    ensures var r := ExtractRun(values, schema, lines, transform, parse, cast);
            |r.rows| <= |lines| && (r.failure.None? <==> |r.rows| == |lines|)
  {
    RowCount(LineStep(schema, transform, parse, cast), values, lines);
  }

  /** Rows come in input order: row `k` is the row after line `k`, processed from the row after
      line `k - 1`. */
  lemma RowsFollowLines(values: map<string, Value>, schema: seq<Column>, lines: seq<string>,
                        transform: Transform, parse: Parse, cast: Cast)
    ensures var r := ExtractRun(values, schema, lines, transform, parse, cast);
            |r.rows| <= |lines|
            && forall k :: 0 <= k < |r.rows| ==>
                 ProcessLine(StateBefore(values, r.rows, k), schema, lines[k], transform, parse, cast)
                 == LineOutcome(r.rows[k], None)
  {
    var step := LineStep(schema, transform, parse, cast);
    RowCount(step, values, lines);
    var r := ExtractRun(values, schema, lines, transform, parse, cast);
    forall k | 0 <= k < |r.rows|
      ensures ProcessLine(StateBefore(values, r.rows, k), schema, lines[k], transform, parse, cast)
              == LineOutcome(r.rows[k], None)
    {
      RowAfterLine(step, values, lines, k);
    }
  }

  /** The run ends in the row after its last yielded line, or, when it fails, in the state the
      first failing line left, which is never yielded. */
  lemma RunEndsAtFirstFailingLine(values: map<string, Value>, schema: seq<Column>, lines: seq<string>,
                                  transform: Transform, parse: Parse, cast: Cast)
    ensures var r := ExtractRun(values, schema, lines, transform, parse, cast);
            |r.rows| <= |lines|
            && (r.failure.None? ==> r.values == StateBefore(values, r.rows, |r.rows|))
            && (r.failure.Some? ==>
                  |r.rows| < |lines|
                  && ProcessLine(StateBefore(values, r.rows, |r.rows|), schema, lines[|r.rows|], transform, parse, cast)
                     == LineOutcome(r.values, r.failure))
  {
    RunEnd(LineStep(schema, transform, parse, cast), values, lines);
  }

  lemma LineKeepsKinds(values: map<string, Value>, schema: seq<Column>, line: string,
                       transform: Transform, parse: Parse, cast: Cast)
    requires CastKeepsKinds(cast) && RowKeepsKinds(values)
    ensures RowKeepsKinds(ProcessLine(values, schema, line, transform, parse, cast).values)
  {
    if SchemaFailure(schema).None? && transform(line).Ok? {
      var json := transform(line).value;
      if parse(json).Ok? {
        PopulateKeepsKinds(values, parse(json).value.properties, cast);
      }
    }
  }

  /** With casts that give values of their kind, every yielded row and the final row hold each
      column's value in that column's kind. */
  lemma {:induction false} ExtractRunKeepsKinds(values: map<string, Value>, schema: seq<Column>, lines: seq<string>,
                                                transform: Transform, parse: Parse, cast: Cast)
    requires CastKeepsKinds(cast) && RowKeepsKinds(values)
    ensures var r := ExtractRun(values, schema, lines, transform, parse, cast);
            RowKeepsKinds(r.values) && forall row :: row in r.rows ==> RowKeepsKinds(row)
    decreases |lines|
  {
    if |lines| > 0 {
      ExtractRunStep(values, schema, lines, transform, parse, cast);
      var o := ProcessLine(values, schema, lines[0], transform, parse, cast);
      LineKeepsKinds(values, schema, lines[0], transform, parse, cast);
      if o.failure.None? {
        var rest := ExtractRun(o.values, schema, lines[1..], transform, parse, cast);
        ExtractRunKeepsKinds(o.values, schema, lines[1..], transform, parse, cast);
        var r := ExtractRun(values, schema, lines, transform, parse, cast);
        assert r.rows == [o.values] + rest.rows;
      }
    }
  }

  /** Under a schema that fails the check, no row is yielded and the first line raises the
      schema's failure; with no lines at all nothing is raised, because the check runs inside the
      line loop. */
  lemma BadSchemaYieldsNoRows(values: map<string, Value>, schema: seq<Column>, lines: seq<string>,
                              transform: Transform, parse: Parse, cast: Cast)
    requires exists k :: 0 <= k < |schema| && !Conforms(schema[k])
    ensures ExtractRun(values, schema, lines, transform, parse, cast)
            == RunOutcome([], values, if |lines| == 0 then None else SchemaFailure(schema))
  {
    if |lines| > 0 {
      BadSchemaStopsBeforeTransform(values, schema, lines[0], transform, parse, cast);
    }
  }
}
