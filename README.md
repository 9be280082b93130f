# Snowplow enriched-event extractor for Azure Data Lake Analytics, in Dafny

This is a model of the core of the Snowplow extractor for U-SQL, with proofs about it. The
extractor reads an input of Snowplow enriched events, one TSV line each. For every line it:
- checks the declared output schema against a fixed table of 132 field names and their kinds;
- hands the line to the event transformer, which returns JSON text;
- writes the event's properties into the mutable output row, which it then yields.

Nested JSON (context arrays, the self-describing `unstruct_event`) is converted recursively into
U-SQL maps and arrays. Alongside the extractor, a set of user-defined functions queries an
event's JSON text:
- `GetObject` / `GetUnstructuredEvent` give the children, or the matches of JSONPath expressions;
- `GetArray` gives the children;
- `GetContext` gives one map per child.

Every selected token is rendered as a string, or converted to a nested map.

Modules (one file each):

- `Wrappers` — `Option` and `Result`.
- `Text` — decimal rendering of integers (`Int64.ToString`) with a parser partner, and
  `string.Join` with a `Split` partner.
- `JsonTokens` — the Json.NET token tree (`JToken`), the writer's string escaping with an
  `Unescape` partner, and compact text (`ToString(Formatting.None)`).
- `Exceptions` — `SnowplowEventExtractionException`.
- `FieldRegistry` — `FieldTypes` and `ENRICHED_EVENT_FIELD_TYPES`.
- `Normalizer` — `ParseObject` and `ParseArray`:
  - they are recursive methods over a mutable `Dictionary` (an ordered list of entries whose
    `Set` replaces in place or appends) and a mutable `ObjectList`;
  - they are proved against the specification function `Normalize`;
  - `Denormalize` is proved to invert it.
- `Schema` — the schema-check `for` loop, proved against the front-recursive `SchemaCheck`
  specification.
- `EventExtractor`:
  - the mutable output `Row`, and `ExtractJson` whose `for` loop writes properties into it;
  - `Extract`, whose `while` loop runs the schema check, the transformer and `ExtractJson` for
    every line;
  - each is proved against a specification function (`Populate` for `ExtractJson`, `ProcessLine`
    for one line, `ExtractRun` for the whole input, which runs `ProcessLine` through the
    generic line loop `RunLines`).
- `EventFunctions` — the query functions, as mutually recursive pure functions.

Everything the core delegates to a library becomes a parameter:
- `EventTransformer.Transform`;
- `JObject.Parse` / `JToken.Parse`;
- `SelectTokens` and `ToObject`;
- the explicit casts `(bool?)`, `(int?)`, `(double?)`, `(DateTime?)` and `(string)`.

Float, date, time-span and GUID values are opaque. Each carries three texts: the one
`JsonConvert.ToString` writes for it, the one the JSON writer behind `ToString(Formatting.None)`
writes for it inside a container, and the one its own `ToString` gives. The first two differ for
the non-finite floats, which `JsonConvert.ToString` writes bare (`NaN`) and the writer quotes
(`"NaN"`).

Where the code and the documented design differ, the model follows the code:

- The schema is checked inside the line loop, before each line is transformed. An input with no
  lines therefore raises nothing, even under an invalid schema (`BadSchemaYieldsNoRows`).
- A column name that is not in the table and is shorter than eight characters makes
  `Substring(0, 8)` throw `ArgumentOutOfRangeException`. That ends the check, and the messages
  collected so far are lost. The model calls this `OutOfRange`.
- The output row is not reset between lines. A column written by one line keeps its value in
  later rows unless a later line overwrites it.
- A yielded row is a snapshot. When a line fails, the rows yielded before it stay yielded.
- Properties of the kind `SqlArray`/`SqlMap` that are in the table (`contexts`,
  `derived_contexts`, `unstruct_event`) have no case in `ExtractJson`. They are never written.
- The unexpected-value error message includes the value's text.

## Model

| member | source | states |
|---|---|---|
| Schema.ValidateSchema | Snowplow.Analytics.Extractor/Event/EventExtractor.cs:191-276 | the schema-check loop returns exactly the `SchemaCheck` outcome: the collected error list, or the first column whose `Substring` throws |
| Schema.CheckColumnMeansConforms | Snowplow.Analytics.Extractor/Event/EventExtractor.cs:199-273 | a column's check throws exactly when its name is neither a table field nor eight characters long. Otherwise it is accepted exactly when it conforms: a table field with exactly its kind's type, or a `contexts…` name of type `SqlArray<SqlMap<string,object>>`, or an `unstruct…` name of type `SqlMap<string,object>`. A rejection carries the invalid-type or invalid-name message |
| Schema.InvalidNameExactly | Snowplow.Analytics.Extractor/Event/EventExtractor.cs:250-273 | "Invalid columnName" is reported exactly for a name outside the table that starts with neither prefix |
| Schema.OneErrorPerOffendingColumn | Snowplow.Analytics.Extractor/Event/EventExtractor.cs:192-276 | when no name makes `Substring` throw, every column is inspected. The error list holds exactly one message per non-conforming column, in schema order, and is empty exactly when every column conforms |
| Schema.OutOfRangeExactly | Snowplow.Analytics.Extractor/Event/EventExtractor.cs:250-262 | the check throws exactly when some name is neither a table field nor eight characters long |
| Schema.OutOfRangeNamesFirstShortColumn | Snowplow.Analytics.Extractor/Event/EventExtractor.cs:193-262 | when it throws, it is at the first such column, and every earlier column was checked normally |
| Normalizer.Dictionary.Set | Snowplow.Analytics.Extractor/Event/EventExtractor.cs:383-412 | `dict[key] = value` replaces the value of an existing key in place, or appends a new key |
| Normalizer.ObjectList.Add | Snowplow.Analytics.Extractor/Event/EventExtractor.cs:433-462 | `list.Add` appends |
| Normalizer.ParseObject | Snowplow.Analytics.Extractor/Event/EventExtractor.cs:369-419 | the passed dictionary is filled with every property's normalized value, in property order, and is the one returned |
| Normalizer.ParseArray | Snowplow.Analytics.Extractor/Event/EventExtractor.cs:421-468 | the passed list gets every element's normalized value appended, in order, and is the one returned |
| Normalizer.NormalizedMapMatchesObject | Snowplow.Analytics.Extractor/Event/EventExtractor.cs:371-418 | for an object with distinct names, the resulting map has exactly the object's keys, in order, each with the normalized value |
| Normalizer.FillDistinct | Snowplow.Analytics.Extractor/Event/EventExtractor.cs:383-412 | set-by-key over distinct keys into an empty dictionary keeps every entry, in order |
| Normalizer.NormalizeRoundTrip | Snowplow.Analytics.Extractor/Event/EventExtractor.cs:369-468 | normalization loses nothing for trees of null, boolean, integer, float, date, string, array and object: denormalizing gives back the tree |
| Normalizer.NormalizeUses64BitInts | Snowplow.Analytics.Extractor/Event/EventExtractor.cs:402-404 | integers anywhere in a normalized tree are 64-bit `long`, never 32-bit |
| EventExtractor.Row.Set | Snowplow.Analytics.Extractor/Event/EventExtractor.cs:309-357 | `output.Set` sets one column and leaves the others |
| EventExtractor.ContextMaps | Snowplow.Analytics.Extractor/Event/EventExtractor.cs:339-348 | the context loop gives one map per element, each the element's `ParseObject` result, or the cast failure when an element is not an object |
| EventExtractor.ExtractJson | Snowplow.Analytics.Extractor/Event/EventExtractor.cs:299-367 | the row and the failure after the property loop are exactly what `Populate` specifies for the parsed event, and a parse failure leaves the row untouched |
| EventExtractor.ExtractLine | Snowplow.Analytics.Extractor/Event/EventExtractor.cs:191-292 | one line's schema check, transformation and property writes give exactly `ProcessLine`'s outcome |
| EventExtractor.Extract | Snowplow.Analytics.Extractor/Event/EventExtractor.cs:182-296 | the rows yielded, the final row and the failure that ends the enumeration are exactly `ExtractRun`'s |
| EventExtractor.PopulateFailsExactly | Snowplow.Analytics.Extractor/Event/EventExtractor.cs:302-363 | a line's properties fail exactly when one of them cannot be written |
| EventExtractor.PopulateStopsAtFirstFailure | Snowplow.Analytics.Extractor/Event/EventExtractor.cs:302-363 | the reported failure is the first failing property's. The row keeps exactly the writes of the properties before it, so writes are not all-or-nothing |
| EventExtractor.PopulateKeepsUnwrittenColumns | Snowplow.Analytics.Extractor/Event/EventExtractor.cs:302-330 | a column no property writes keeps its previous value (or absence), whether or not the line fails |
| EventExtractor.PopulateWritesEveryProperty | Snowplow.Analytics.Extractor/Event/EventExtractor.cs:302-358 | after a successful line, every written property's column holds the value written for it, and the only columns added are the written ones |
| EventExtractor.ExtractedJsonWritesEveryProperty | Snowplow.Analytics.Extractor/Event/EventExtractor.cs:299-358 | a parsed event's property names are distinct, so after a successful event every written property's column holds the value written for it |
| EventExtractor.PopulateKeepsKinds | Snowplow.Analytics.Extractor/Event/EventExtractor.cs:305-358 | with casts that return values of the kind they convert to, every column a line writes holds a value of its field's kind (a null, or a `bool`, `int`, `double`, `DateTime` or `string` for a table field; a map or an array of maps for any other field), whether or not the line fails |
| EventExtractor.ExtractRunKeepsKinds | Snowplow.Analytics.Extractor/Event/EventExtractor.cs:187-358 | under the same casts, every yielded row and the final row hold each column's value in that column's kind |
| EventExtractor.RegistryContainersNeverWritten | Snowplow.Analytics.Extractor/Event/EventExtractor.cs:307-330 | a table field of kind `SqlArray`/`SqlMap` is never written by a line |
| EventExtractor.ContextArrayBecomesMaps | Snowplow.Analytics.Extractor/Event/EventExtractor.cs:336-351 | a non-table array of objects becomes one map per element, in element order, each with the element's keys in order and normalized values. Any other array fails the cast to an object |
| EventExtractor.UnstructObjectBecomesMap | Snowplow.Analytics.Extractor/Event/EventExtractor.cs:352-358 | a non-table object becomes one map with the object's keys in order and normalized values |
| EventExtractor.UnexpectedValueNamesField | Snowplow.Analytics.Extractor/Event/EventExtractor.cs:359-363 | any other non-table value fails with a single-message extraction exception. The message shows the value's text and ends with the field's name |
| EventExtractor.SchemaAcceptedExactly | Snowplow.Analytics.Extractor/Event/EventExtractor.cs:191-281 | the schema check raises nothing exactly when every column conforms |
| EventExtractor.BadSchemaStopsBeforeTransform | Snowplow.Analytics.Extractor/Event/EventExtractor.cs:276-286 | under a non-conforming schema, a line ends in the schema failure without consulting the transformer and without touching the row |
| EventExtractor.TransformFailureRethrown | Snowplow.Analytics.Extractor/Event/EventExtractor.cs:284-292 | a transformation failure is rethrown as an extraction exception carrying the transformer's message list unchanged, with the row untouched |
| EventExtractor.OneRowPerLine | Snowplow.Analytics.Extractor/Event/EventExtractor.cs:187-293 | at most one row is yielded per line, and the enumeration completes exactly when every line yielded one |
| EventExtractor.RowsFollowLines | Snowplow.Analytics.Extractor/Event/EventExtractor.cs:187-293 | rows come in input order: row `k` is the state after processing line `k` from the state after line `k - 1` |
| EventExtractor.RunEndsAtFirstFailingLine | Snowplow.Analytics.Extractor/Event/EventExtractor.cs:187-293 | a failing run ends at the first failing line, which yields no row, and the failure and final row are that line's |
| EventExtractor.BadSchemaYieldsNoRows | Snowplow.Analytics.Extractor/Event/EventExtractor.cs:187-281 | under a non-conforming schema, no row is yielded and the first line raises the schema failure. With no lines, nothing is raised |
| Exceptions.FromList | Snowplow.Analytics.Extractor/Exceptions/SnowplowEventExtractionException.cs:47-51 | the list constructor stores the list unchanged, and its base message equals `Message` |
| Exceptions.FromMessage | Snowplow.Analytics.Extractor/Exceptions/SnowplowEventExtractionException.cs:53-57 | the single-message constructor stores the one-element list, and `Message` and the base message both equal the message |
| Exceptions.MessageKeepsEveryError | Snowplow.Analytics.Extractor/Exceptions/SnowplowEventExtractionException.cs:39-59 | `Message` is the list joined with newlines. Splitting it at newlines gives back the list when no message contains one |
| Exceptions.MessageMatchesBase | Snowplow.Analytics.Extractor/Exceptions/SnowplowEventExtractionException.cs:39-57 | whichever constructor built it, `Message` and the base exception's message agree |
| Exceptions.SingletonListIsMessage | Snowplow.Analytics.Extractor/Exceptions/SnowplowEventExtractionException.cs:47-57 | a one-message list and the single message build the same exception |
| Text.JoinSplitRoundTrip | Snowplow.Analytics.Extractor/Exceptions/SnowplowEventExtractionException.cs:59 | `string.Join` with a separator no part contains is inverted by splitting |
| Text.DecimalRoundTrip | Snowplow.Analytics.Extractor/Function/EventFunctions.cs:161-166 | an integer's invariant decimal text parses back to the integer |
| JsonTokens.EscapeRoundTrip | Snowplow.Analytics.Extractor/Function/EventFunctions.cs:177-179 | the writer's string escaping used in compact text is decoded back to the original string |
| JsonTokens.CompactNonEmpty | Snowplow.Analytics.Extractor/Function/EventFunctions.cs:194-197 | a token's compact text is never empty, so reparsing it never takes the null-or-empty shortcut |
| EventFunctions.ConvertToken | Snowplow.Analytics.Extractor/Function/EventFunctions.cs:184-215 | a string target renders the token. Every success has the target's shape, and every failure is the one message naming the token's path, its type and the target's full name |
| EventFunctions.ApplyPath | Snowplow.Analytics.Extractor/Function/EventFunctions.cs:114-125 | one entry per selected token, in order: the token's path and its string rendering |
| EventFunctions.ConvertEach | Snowplow.Analytics.Extractor/Function/EventFunctions.cs:101-111 | a successful conversion gives one value of the target's shape per child |
| EventFunctions.GetArrayOf | Snowplow.Analytics.Extractor/Function/EventFunctions.cs:90-98 | every converted child has the target's shape |
| EventFunctions.EmptyInputGivesEmptyResults | Snowplow.Analytics.Extractor/Function/EventFunctions.cs:61-146 | null or empty text is an empty object. `GetObject` without paths (or with only empty paths), `GetArray` and `GetContext` then give empty results and raise nothing |
| EventFunctions.ObjectChildrenByName | Snowplow.Analytics.Extractor/Function/EventFunctions.cs:74-143 | without paths, a root object gives one entry per property, in order, keyed by the property name with its value rendered as a string |
| EventFunctions.ApplyPathsConcatenates | Snowplow.Analytics.Extractor/Function/EventFunctions.cs:68-71 | the result for a list of paths is the concatenation, in argument order, of each path's matches |
| EventFunctions.EmptyPathFallsBackToChildren | Snowplow.Analytics.Extractor/Function/EventFunctions.cs:68-134 | an empty path among the arguments contributes exactly the plain children's entries |
| EventFunctions.ArrayChildrenInOrder | Snowplow.Analytics.Extractor/Function/EventFunctions.cs:90-146 | `GetArray` renders every child in document order (an array's elements, an object's property values) and raises nothing once the text parses |
| EventFunctions.ConvertEachToStrings | Snowplow.Analytics.Extractor/Function/EventFunctions.cs:101-111 | converting children to strings never fails and renders each child |
| EventFunctions.ContextMapsPerElement | Snowplow.Analytics.Extractor/Function/EventFunctions.cs:77-98 | when each element's compact text parses back to the element, `GetContext` gives one map per element, in order, each equal to `GetObject` of that element's compact text |
| EventFunctions.ConvertEachToMaps | Snowplow.Analytics.Extractor/Function/EventFunctions.cs:184-197 | converting reparseable children to maps gives each child's own children entries |
| EventFunctions.ContextFailureNamesElement | Snowplow.Analytics.Extractor/Function/EventFunctions.cs:207-213 | a failure in `GetContext` is reported for the first element whose compact text does not parse, by that element's path, type and the map type |
| EventFunctions.SerializationMessageHidesValue | Snowplow.Analytics.Extractor/Function/EventFunctions.cs:207-213 | the failure message depends only on the path, the token type and the target, never on the value |
| EventFunctions.ConversionFailsOnlyInLibrary | Snowplow.Analytics.Extractor/Function/EventFunctions.cs:188-197 | a conversion to a string never fails. A conversion to a map fails exactly when the token's compact text does not parse |
| EventFunctions.StripQuotesRemovesOnePair | Snowplow.Analytics.Extractor/Function/EventFunctions.cs:168-175 | exactly one surrounding pair of quotes is removed, and only from a quoted text longer than two characters. `""` and every unquoted text are unchanged |
| EventFunctions.FloatRenderingByPlace | Snowplow.Analytics.Extractor/Function/EventFunctions.cs:161-179 | a float on its own renders as `JsonConvert.ToString`'s text, but inside an array as the JSON writer's: `NaN` alone, `["NaN"]` in an array |
| EventFunctions.IntegerTextRoundTrip | Snowplow.Analytics.Extractor/Function/EventFunctions.cs:161-166 | an integer renders as decimal text that reads back as the same integer |
| EventFunctions.StringRendering | Snowplow.Analytics.Extractor/Function/EventFunctions.cs:158-179 | a string renders as itself. An array of one string renders as that string's JSON literal in brackets, whose escaping decodes back to the string |
| EventFunctions.PlainStringArrayText | Snowplow.Analytics.Extractor/Function/EventFunctions.cs:177-179 | an array holding one plain string renders as `["…"]` |
| EventFunctions.GetArrayOfFourStrings | Snowplow.Analytics.Extractor.Tests/Function/EventFunctionsTest.cs:113-124 | the test's four-string array gives those four strings, in order |
| EventFunctions.GetObjectOfLinkClick | Snowplow.Analytics.Extractor.Tests/Function/EventFunctionsTest.cs:29-55 | the test's link-click object gives `http://www.example.com`, `["foreground"]`, `exampleLink`, `true`, `1` and `20.2` under its property names |

## Left out

- Stream and line reading (`StreamReader` over `IUnstructuredReader`): the input is a sequence of lines.
- `EventTransformer.Transform`, `JObject.Parse`/`JToken.Parse`, `SelectTokens` and `ToObject` are library code that is not part of this model. They are parameters, and only what the extractor and the functions do with their results is modelled.
- The library casts `(bool?)`, `(int?)`, `(double?)`, `(DateTime?)`, `(string)` of a token: a `Cast` parameter. Which token types each accepts, and how they convert, is floating-point, culture and library behaviour. That each cast returns a value of its own type is the hypothesis `CastKeepsKinds` of the kind lemmas; the 32-bit range of `int?` is carried by the `int32` type of `Int`.
- Float, date, time-span and GUID formatting by `JsonConvert.ToString` and `JValue.ToString`: opaque texts carried by the token. Integers are assumed to fit in 64 bits; tokens holding a `BigInteger` are not modelled.
- EventExtractor.DisplayText: renders an integer in invariant-culture decimal digits and a boolean as `True`/`False`. `$"{token}"` formats with the current culture, so under a culture with other digits or a different negative sign the message of `UnexpectedValueNamesField` would differ; culture-specific formatting is not modelled.
- Schema.CheckColumn: the length test and `Substring(0, 8)` count Unicode characters, not the UTF-16 code units .NET counts. A name of seven characters of which one lies outside the Basic Multilingual Plane (an emoji, say) is eight code units long: .NET compares its first eight code units with the prefixes, where the model reports `OutOfRange`.
- EventFunctions.StripQuotes: `v.Length > 2` and `v[v.Length - 1]` are likewise taken over Unicode characters. The two counts differ only for text holding characters outside the Basic Multilingual Plane, which the quoted date, time-span and GUID texts never contain.
- EventExtractor.Parse: the type promises distinct property names at the top level of a parsed event, which is what the key-preservation lemmas use. Distinct names in nested objects are a precondition (`WellFormed`) of the lemmas about nested values rather than part of the type.
- The token types `Constructor`, `Comment`, `Raw`, `Bytes` and `Uri`: they do not occur in parsed event JSON and are not in the token datatype.
- Json.NET's bracket quoting in `token.Path` for property names with special characters: a path is the property name or `[i]`.
- `SqlMap.Create` and `new SqlMap(dict)` on duplicate keys: the model keeps the entries in order. Json.NET objects have distinct names, which the key-preservation lemmas require; for the parsed event itself the `Parse` type guarantees them.
- U-SQL's own checks inside `IUpdatableRow.Set` (unknown column, value of the wrong type): the row accepts any column.
- `string.Compare` in the prefix tests is culture-sensitive: modelled as exact equality of the first eight characters.
- The extractor's `default:` case of the schema switch cannot be reached, because every kind has a case. It is not modelled.
- Reflection on the target type in `ConvertToken`: replaced by the tagged `Target` (string, `SqlMap<string,string>`, `SqlArray<string>`, other by full name). Other instantiations of `SqlMap<,>`/`SqlArray<>` and the `(T)` cast that follows are not modelled. The full names of the two generic targets are written for .NET Framework's mscorlib.
- A null string inside the `paths` argument is modelled as the empty string, which `SelectChildren` treats the same way. A null `paths` array is modelled as the empty list.
- The registry table is data only. Lemmas about individual table entries (for example that `contexts` is an `SqlArray` field) would need the solver to compare the 132 literal keys and are not stated; the lemmas quantify over kinds instead.
- Exceptions outside those the code raises or rethrows, such as an `InvalidCastException` from a cast, are modelled only as the failure that ends the line. The exact .NET exception type is not.
