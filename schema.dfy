/** The output-schema check the extractor runs for every input line before transforming it:
    every declared column must either be a fixed field declared with exactly its kind's type, or
    a dynamic `contexts…` / `unstruct…` column of the matching container type. Mismatches are
    collected, one message per offending column. */
module Schema {
  import opened FieldRegistry

  /** The declared .NET type of an output column. `OtherType` stands for any type outside the
      eight the extractor compares against, named as `Type.ToString()` names it. */
  datatype ColumnType =
    | NullableBoolean
    | NullableInt32
    | NullableDouble
    | NullableDateTime
    | StringType
    | SqlArrayOfObject
    | SqlMapOfStringObject
    | SqlArrayOfSqlMap
    | OtherType(name: string)

  datatype Column = Column(name: string, columnType: ColumnType)

  /** `Type.ToString()`, as interpolated into the error messages. */
  function TypeName(t: ColumnType): string {
    match t
    case NullableBoolean => "System.Nullable`1[System.Boolean]"
    case NullableInt32 => "System.Nullable`1[System.Int32]"
    case NullableDouble => "System.Nullable`1[System.Double]"
    case NullableDateTime => "System.Nullable`1[System.DateTime]"
    case StringType => "System.String"
    case SqlArrayOfObject => "Microsoft.Analytics.Types.Sql.SqlArray`1[System.Object]"
    case SqlMapOfStringObject => "Microsoft.Analytics.Types.Sql.SqlMap`2[System.String,System.Object]"
    case SqlArrayOfSqlMap =>
      "Microsoft.Analytics.Types.Sql.SqlArray`1[Microsoft.Analytics.Types.Sql.SqlMap`2[System.String,System.Object]]"
    case OtherType(name) => name
  }

  /** The declared type each field kind demands. */
  function ExpectedType(k: FieldType): ColumnType {
    match k
    case PropertyBoolean => NullableBoolean
    case PropertyInt32 => NullableInt32
    case PropertyDouble => NullableDouble
    case PropertyDateTime => NullableDateTime
    case PropertyString => StringType
    case PropertySqlArray => SqlArrayOfObject
    case PropertySqlMap => SqlMapOfStringObject
  }

  const ContextKey: string := "contexts"
  const UnstructKey: string := "unstruct"

  function InvalidTypeMessage(c: Column, expected: ColumnType): string {
    "Invalid columnType " + TypeName(c.columnType) + " for columnName " + c.name
    + "; expected columnType: " + TypeName(expected)
  }

  function InvalidNameMessage(c: Column): string {
    "Invalid columnName " + c.name
  }

  /** The check of one column: accepted, rejected with the message the source adds to its error
      list, or the `ArgumentOutOfRangeException` that `Substring(0, 8)` throws for a name that is
      not a fixed field and is shorter than eight characters. */
  datatype Verdict = Accepted | Rejected(message: string) | SubstringOutOfRange

  function CheckColumn(c: Column): Verdict {
    if c.name in EnrichedEventFieldTypes then
      var expected := ExpectedType(EnrichedEventFieldTypes[c.name]);
      if c.columnType == expected then Accepted else Rejected(InvalidTypeMessage(c, expected))
    else if |c.name| < |ContextKey| then SubstringOutOfRange
    else if c.name[..|ContextKey|] == ContextKey then
      if c.columnType == SqlArrayOfSqlMap then Accepted else Rejected(InvalidTypeMessage(c, SqlArrayOfSqlMap))
    else if c.name[..|UnstructKey|] == UnstructKey then
      if c.columnType == SqlMapOfStringObject then Accepted else Rejected(InvalidTypeMessage(c, SqlMapOfStringObject))
    else Rejected(InvalidNameMessage(c))
  }

  /** The outcome of checking a whole schema: the collected error list, or the name of the column
      whose `Substring` threw (which ends the check and drops the errors collected so far). */
  datatype SchemaOutcome = Checked(errors: seq<string>) | OutOfRange(column: string)

  function Prepend(errors: seq<string>, o: SchemaOutcome): SchemaOutcome {
    match o
    case Checked(rest) => Checked(errors + rest)
    case OutOfRange(name) => o
  }

  function SchemaCheck(columns: seq<Column>): SchemaOutcome
    decreases |columns|
  {
    if |columns| == 0 then Checked([])
    else match CheckColumn(columns[0])
      case SubstringOutOfRange => OutOfRange(columns[0].name)
      case Rejected(m) => Prepend([m], SchemaCheck(columns[1..]))
      case Accepted => SchemaCheck(columns[1..])
  }

  /** The `for` loop over `output.Schema` in `Extract`, up to the point where it throws. */
  method ValidateSchema(schema: seq<Column>) returns (outcome: SchemaOutcome)
    ensures outcome == SchemaCheck(schema)
  {
    var errors: seq<string> := [];
    for i := 0 to |schema|
      invariant SchemaCheck(schema) == Prepend(errors, SchemaCheck(schema[i..]))
    {
      assert schema[i..][1..] == schema[i + 1..];
      var verdict := CheckColumn(schema[i]);
      match verdict {
        case SubstringOutOfRange =>
          return OutOfRange(schema[i].name);
        case Rejected(m) =>
          errors := errors + [m];
        case Accepted =>
      }
    }
    outcome := Checked(errors);
  }

  // ---------------------------------------------------------------------------------------------
  // Properties

  /** What a column must be, stated without the source's `Substring` comparisons. */
  ghost predicate Conforms(c: Column) {
    if c.name in EnrichedEventFieldTypes then c.columnType == ExpectedType(EnrichedEventFieldTypes[c.name])
    else
      (ContextKey <= c.name && c.columnType == SqlArrayOfSqlMap)
      || (UnstructKey <= c.name && c.columnType == SqlMapOfStringObject)
  }

  lemma ThrowsExactlyOnShortName(c: Column)
    ensures CheckColumn(c) == SubstringOutOfRange <==> c.name !in EnrichedEventFieldTypes && |c.name| < 8
  {
  }

  /** A column's check throws exactly when its name is neither a fixed field nor eight characters
      long; otherwise it is accepted exactly when it conforms, and a rejection names the column. */
  lemma CheckColumnMeansConforms(c: Column)
    ensures CheckColumn(c) == SubstringOutOfRange <==> c.name !in EnrichedEventFieldTypes && |c.name| < 8
    ensures CheckColumn(c) != SubstringOutOfRange ==> (CheckColumn(c) == Accepted <==> Conforms(c))
    ensures CheckColumn(c).Rejected? ==>
              CheckColumn(c).message == InvalidNameMessage(c)
              || exists t :: CheckColumn(c).message == InvalidTypeMessage(c, t)
  {
    if c.name !in EnrichedEventFieldTypes && |c.name| >= 8 {
      assert ContextKey <= c.name <==> c.name[..8] == ContextKey;
      assert UnstructKey <= c.name <==> c.name[..8] == UnstructKey;
    }
  }

  /** A rejection of the type and a rejection of the name never read alike. */
  lemma MessagesDiffer(c: Column, t: ColumnType)
    ensures InvalidTypeMessage(c, t) != InvalidNameMessage(c)
  {
    var m := "Invalid columnType " + TypeName(c.columnType);
    assert m[14] == 'T';
    m := m + " for columnName ";
    assert m[14] == 'T';
    m := m + c.name;
    assert m[14] == 'T';
    m := m + "; expected columnType: ";
    assert m[14] == 'T';
    m := m + TypeName(t);
    assert m[14] == 'T' && m == InvalidTypeMessage(c, t);
    assert InvalidNameMessage(c)[14] == 'N';
  }

  /** A name is rejected as invalid exactly when it is no fixed field and starts with neither
      dynamic prefix. */
  lemma InvalidNameExactly(c: Column)
    requires c.name in EnrichedEventFieldTypes || |c.name| >= 8
    ensures CheckColumn(c) == Rejected(InvalidNameMessage(c)) <==>
              c.name !in EnrichedEventFieldTypes && !(ContextKey <= c.name) && !(UnstructKey <= c.name)
  {
    if c.name in EnrichedEventFieldTypes {
      MessagesDiffer(c, ExpectedType(EnrichedEventFieldTypes[c.name]));
    } else {
      assert ContextKey <= c.name <==> c.name[..8] == ContextKey;
      assert UnstructKey <= c.name <==> c.name[..8] == UnstructKey;
      MessagesDiffer(c, SqlArrayOfSqlMap);
      MessagesDiffer(c, SqlMapOfStringObject);
    }
  }

  /** The offending columns, in schema order. */
  ghost function Offending(columns: seq<Column>): seq<Column>
    decreases |columns|
  {
    if |columns| == 0 then []
    else if Conforms(columns[0]) then Offending(columns[1..])
    else [columns[0]] + Offending(columns[1..])
  }

  ghost predicate NoneOutOfRange(columns: seq<Column>) {
    forall k :: 0 <= k < |columns| ==> columns[k].name in EnrichedEventFieldTypes || |columns[k].name| >= 8
  }

  /** The messages a conforming and an offending first column add in front of the rest's. */
  lemma CheckStep(columns: seq<Column>)
    requires |columns| > 0
    requires columns[0].name in EnrichedEventFieldTypes || |columns[0].name| >= 8
    ensures var v := CheckColumn(columns[0]);
            v.Accepted? == Conforms(columns[0])
            && SchemaCheck(columns) == Prepend(if v.Rejected? then [v.message] else [], SchemaCheck(columns[1..]))
  {
    CheckColumnMeansConforms(columns[0]);
  }

  /** The messages of rejected columns, in order. */
  ghost function RejectionMessages(cs: seq<Column>): seq<string>
    decreases |cs|
  {
    if |cs| == 0 then []
    else
      var v := CheckColumn(cs[0]);
      (if v.Rejected? then [v.message] else []) + RejectionMessages(cs[1..])
  }

  lemma {:induction false} ErrorsOfOffendingColumns(columns: seq<Column>)
    requires NoneOutOfRange(columns)
    ensures SchemaCheck(columns) == Checked(RejectionMessages(Offending(columns)))
    decreases |columns|
  {
    if |columns| > 0 {
      var tail := columns[1..];
      assert NoneOutOfRange(tail) by {
        forall k | 0 <= k < |tail| ensures tail[k] == columns[k + 1] {}
      }
      ErrorsOfOffendingColumns(tail);
      CheckStep(columns);
      if !Conforms(columns[0]) {
        assert Offending(columns)[1..] == Offending(tail);
      }
    }
  }

  lemma {:induction false} RejectionMessageAt(cs: seq<Column>, k: nat)
    requires forall i :: 0 <= i < |cs| ==> CheckColumn(cs[i]).Rejected?
    requires k < |cs|
    ensures |RejectionMessages(cs)| == |cs| && Rejected(RejectionMessages(cs)[k]) == CheckColumn(cs[k])
    decreases |cs|
  {
    var tail := cs[1..];
    var v := CheckColumn(cs[0]);
    assert v.Rejected?;
    assert RejectionMessages(cs) == [v.message] + RejectionMessages(tail);
    if |tail| > 0 {
      assert forall i :: 0 <= i < |tail| ==> tail[i] == cs[i + 1];
      RejectionMessageAt(tail, if k > 0 then k - 1 else 0);
      if k > 0 {
        assert cs[k] == tail[k - 1];
      }
    }
  }

  lemma NonConformingRejected(c: Column)
    requires c.name in EnrichedEventFieldTypes || |c.name| >= 8
    requires !Conforms(c)
    ensures CheckColumn(c).Rejected?
  {
    CheckColumnMeansConforms(c);
  }

  lemma {:induction false} OffendingRejectedAt(columns: seq<Column>, i: nat)
    requires NoneOutOfRange(columns)
    requires i < |Offending(columns)|
    ensures CheckColumn(Offending(columns)[i]).Rejected?
    decreases |columns|
  {
    var tail := columns[1..];
    assert NoneOutOfRange(tail) by {
      forall k | 0 <= k < |tail| ensures tail[k] == columns[k + 1] {}
    }
    if Conforms(columns[0]) {
      OffendingRejectedAt(tail, i);
    } else if i == 0 {
      NonConformingRejected(columns[0]);
    } else {
      OffendingRejectedAt(tail, i - 1);
      assert Offending(columns)[i] == Offending(tail)[i - 1];
    }
  }

  lemma {:induction false} NoOffendingExactly(columns: seq<Column>)
    ensures Offending(columns) == [] <==> forall k :: 0 <= k < |columns| ==> Conforms(columns[k])
    decreases |columns|
  {
    if |columns| > 0 {
      NoOffendingExactly(columns[1..]);
      assert forall k :: 1 <= k < |columns| ==> columns[k] == columns[1..][k - 1];
    }
  }

  /** When no column name makes `Substring` throw, the check inspects every column and reports
      exactly one message per offending column, in schema order; the list is empty exactly when
      every column conforms. */
  lemma OneErrorPerOffendingColumn(columns: seq<Column>)
    requires NoneOutOfRange(columns)
    ensures SchemaCheck(columns).Checked?
    ensures var errors := SchemaCheck(columns).errors;
            |errors| == |Offending(columns)|
            && (forall k :: 0 <= k < |errors| ==> Rejected(errors[k]) == CheckColumn(Offending(columns)[k]))
    ensures SchemaCheck(columns).errors == [] <==> forall k :: 0 <= k < |columns| ==> Conforms(columns[k])
  {
    ErrorsOfOffendingColumns(columns);
    NoOffendingExactly(columns);
    var offending := Offending(columns);
    forall i | 0 <= i < |offending| ensures CheckColumn(offending[i]).Rejected? {
      OffendingRejectedAt(columns, i);
    }
    if |offending| == 0 {
      assert RejectionMessages(offending) == [];
    }
    forall k | 0 <= k < |offending|
      ensures |RejectionMessages(offending)| == |offending|
              && Rejected(RejectionMessages(offending)[k]) == CheckColumn(offending[k])
    {
      RejectionMessageAt(offending, k);
    }
  }

  /** The check throws exactly when some column's name is neither a fixed field nor eight
      characters long. */
  lemma {:induction false} OutOfRangeExactly(columns: seq<Column>)
    ensures SchemaCheck(columns).OutOfRange? <==> !NoneOutOfRange(columns)
    decreases |columns|
  {
    if |columns| > 0 {
      ThrowsExactlyOnShortName(columns[0]);
      OutOfRangeExactly(columns[1..]);
      assert forall k :: 1 <= k < |columns| ==> columns[k] == columns[1..][k - 1];
    }
  }

  /** When it throws, it names the first column whose name is too short. */
  lemma {:induction false} OutOfRangeNamesFirstShortColumn(columns: seq<Column>)
    requires SchemaCheck(columns).OutOfRange?
    ensures exists i :: 0 <= i < |columns|
                     && columns[i].name !in EnrichedEventFieldTypes && |columns[i].name| < 8
                     && SchemaCheck(columns).column == columns[i].name
                     && NoneOutOfRange(columns[..i])
    decreases |columns|
  {
    var c, tail := columns[0], columns[1..];
    ThrowsExactlyOnShortName(c);
    if CheckColumn(c) == SubstringOutOfRange {
      assert NoneOutOfRange(columns[..0]);
    } else {
      CheckStep(columns);
      assert SchemaCheck(tail).OutOfRange? && SchemaCheck(columns).column == SchemaCheck(tail).column;
      OutOfRangeNamesFirstShortColumn(tail);
      var i :| 0 <= i < |tail| && tail[i].name !in EnrichedEventFieldTypes && |tail[i].name| < 8
               && SchemaCheck(tail).column == tail[i].name && NoneOutOfRange(tail[..i]);
      assert columns[..i + 1] == [c] + tail[..i];
      NoneOutOfRangeCons(c, tail[..i]);
      assert columns[i + 1] == tail[i];
    }
  }


  lemma NoneOutOfRangeCons(c: Column, cs: seq<Column>)
    requires c.name in EnrichedEventFieldTypes || |c.name| >= 8
    requires NoneOutOfRange(cs)
    ensures NoneOutOfRange([c] + cs)
  {
    var all := [c] + cs;
    forall k | 0 <= k < |all| ensures all[k].name in EnrichedEventFieldTypes || |all[k].name| >= 8 {
      if k > 0 { assert all[k] == cs[k - 1]; }
    }
  }
}
