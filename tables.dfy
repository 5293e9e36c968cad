/**
 * The helpers of src/tables/tables.service.ts: the classification of a
 * Postgres column type into the four logical types the front end knows, the
 * schema mapping built on it, the quoting of a table name as an SQL
 * identifier, and the assembly of the export query with its date parameters.
 */
module Tables {
  import opened Wrappers
  import opened JsValues

  // ---------------------------------------------------------------------------
  // Column types

  /** The logical column types `getTableSchema` reports. */
  datatype ColumnType = NumberType | BooleanType | DateType | StringType

  /** The label sent to the client for each logical type. */
  function TypeLabel(t: ColumnType): (r: string)
    ensures r in ["number", "boolean", "date", "string"]
  {
    match t
    case NumberType => "number"
    case BooleanType => "boolean"
    case DateType => "date"
    case StringType => "string"
  }

  /** `s.includes(pat)`. */
  predicate Includes(s: string, pat: string) {
    exists i :: 0 <= i <= |s| && pat <= s[i..]
  }

  predicate IsNumericType(t: string) {
    Includes(t, "numeric") || Includes(t, "integer") || Includes(t, "double") || Includes(t, "real")
  }

  predicate IsDateType(t: string) {
    Includes(t, "timestamp") || Includes(t, "date")
  }

  /**
   * The if/else chain on the lower-cased `data_type`: numeric names first,
   * then `boolean`, then `timestamp`/`date`, and `string` for everything else.
   */
  function ClassifyType(dataType: string): (r: ColumnType)
    ensures var t := Lower(dataType);
      && (r == NumberType <==> IsNumericType(t))
      && (r == BooleanType <==> !IsNumericType(t) && Includes(t, "boolean"))
      && (r == DateType <==> !IsNumericType(t) && !Includes(t, "boolean") && IsDateType(t))
      && (r == StringType <==> !IsNumericType(t) && !Includes(t, "boolean") && !IsDateType(t))
  {
    var t := Lower(dataType);
    if IsNumericType(t) then NumberType
    else if Includes(t, "boolean") then BooleanType
    else if IsDateType(t) then DateType
    else StringType
  }

  /** A substring found at `i` is included. */
  lemma IncludesAt(s: string, pat: string, i: nat)
    requires i <= |s| && pat <= s[i..]
    ensures Includes(s, pat)
  {
  }

  /** The classification ignores case: a name and its lower-cased form get the same type. */
  lemma ClassifyIgnoresCase(dataType: string)
    ensures ClassifyType(Lower(dataType)) == ClassifyType(dataType)
  {
    LowerIsLower(dataType);
    LowerOfLower(Lower(dataType));
  }

  /** A numeric name wins over every later test, even when it also names a date or a boolean. */
  lemma NumericTakesPrecedence(dataType: string)
    requires IsNumericType(Lower(dataType))
    ensures ClassifyType(dataType) == NumberType
  {
  }

  /** `date` is a date: no numeric name occurs in it. */
  lemma DateIsDate()
    ensures ClassifyType("date") == DateType
  {
    assert Lower("date") == "date" by { LowerOfLower("date"); }
    IncludesAt("date", "date", 0);
    NotIncluded("date", "numeric");
    NotIncluded("date", "integer");
    NotIncluded("date", "double");
    NotIncluded("date", "real");
    NotIncluded("date", "boolean");
  }

  /**
   * `bigint` and `smallint` contain none of the numeric names, so the chain
   * reports them as `string`.
   */
  lemma BigintIsString()
    ensures ClassifyType("bigint") == StringType
  {
    assert Lower("bigint") == "bigint" by { LowerOfLower("bigint"); }
    BigintNotNumeric();
    BigintNotOther();
  }

  lemma BigintNotNumeric()
    ensures !Includes("bigint", "numeric") && !Includes("bigint", "integer")
    ensures !Includes("bigint", "double") && !Includes("bigint", "real")
  {
    NotIncluded("bigint", "numeric");
    NotIncluded("bigint", "integer");
    NotIncluded("bigint", "double");
    NotIncluded("bigint", "real");
  }

  lemma BigintNotOther()
    ensures !Includes("bigint", "boolean") && !Includes("bigint", "timestamp") && !Includes("bigint", "date")
  {
    NotIncluded("bigint", "boolean");
    NotIncluded("bigint", "timestamp");
    NotIncluded("bigint", "date");
  }

  /** A pattern whose first character occurs nowhere it could start is not included. */
  lemma NotIncluded(s: string, pat: string)
    requires |pat| > 0
    requires forall i :: 0 <= i && i + |pat| <= |s| ==> s[i] != pat[0]
    ensures !Includes(s, pat)
  {
    forall i | 0 <= i <= |s|
      ensures !(pat <= s[i..])
    {
      if i + |pat| <= |s| {
        assert s[i..][0] == s[i];
      }
    }
  }

  // ---------------------------------------------------------------------------
  // Schema mapping

  /** One row of `information_schema.columns`. */
  datatype ColumnInfo = ColumnInfo(columnName: string, dataType: string, isNullable: string)

  /** One entry of the schema sent to the client. */
  datatype Field = Field(name: string, fieldType: string, required: bool)

  /** The `schema.map(...)` of `getTableSchema`. */
  function MapSchema(cols: seq<ColumnInfo>): (fields: seq<Field>)
    ensures |fields| == |cols|
    ensures forall i :: 0 <= i < |cols| ==>
      && fields[i].name == cols[i].columnName
      && fields[i].fieldType == TypeLabel(ClassifyType(cols[i].dataType))
      && (fields[i].required <==> cols[i].isNullable == "NO")
  {
    seq(|cols|, i requires 0 <= i < |cols| =>
      Field(cols[i].columnName, TypeLabel(ClassifyType(cols[i].dataType)), cols[i].isNullable == "NO"))
  }

  /** Mapping commutes with concatenation, so the mapping is column by column and keeps the order. */
  lemma MapSchemaConcat(a: seq<ColumnInfo>, b: seq<ColumnInfo>)
    ensures MapSchema(a + b) == MapSchema(a) + MapSchema(b)
  {
    var l := MapSchema(a + b);
    var r := MapSchema(a) + MapSchema(b);
    assert |l| == |r|;
    forall i | 0 <= i < |l|
      ensures l[i] == r[i]
    {
      if i < |a| {
        assert (a + b)[i] == a[i];
      } else {
        assert (a + b)[i] == b[i - |a|];
      }
    }
  }

  /**
   * `getTableSchema` given the rows its query returns, or the message of the
   * error the query raised, which is rethrown as an internal error.
   */
  function GetTableSchema(rows: Result<seq<ColumnInfo>, string>): (r: Result<seq<Field>, HttpError>)
    ensures rows.Failure? ==> r == Failure(InternalServerError(rows.error))
    ensures rows.Success? ==> r == Success(MapSchema(rows.value))
    ensures rows.Success? ==> r.Success? && |r.value| == |rows.value|
    ensures rows.Success? ==> forall i :: 0 <= i < |rows.value| ==>
      && r.value[i].name == rows.value[i].columnName
      && r.value[i].fieldType == TypeLabel(ClassifyType(rows.value[i].dataType))
      && (r.value[i].required <==> rows.value[i].isNullable == "NO")
  {
    match rows
    case Failure(message) => Failure(InternalServerError(message))
    case Success(cols) => Success(MapSchema(cols))
  }

  // ---------------------------------------------------------------------------
  // Identifier quoting

  /** `s.replace(/"/g, '""')`. */
  function DoubleQuotes(s: string): (r: string)
    ensures |r| >= |s|
  {
    if s == [] then []
    else if s[0] == '"' then "\"\"" + DoubleQuotes(s[1..])
    else [s[0]] + DoubleQuotes(s[1..])
  }

  /** The inverse of `DoubleQuotes`: each `""` becomes one `"`. */
  function UndoubleQuotes(t: string): string
    decreases |t|
  {
    if t == [] then []
    else if t[0] == '"' && |t| >= 2 && t[1] == '"' then "\"" + UndoubleQuotes(t[2..])
    else [t[0]] + UndoubleQuotes(t[1..])
  }

  /** Every `"` of `t` is one of an adjacent pair: `t` has no lone quote that could end the identifier. */
  predicate QuotesPaired(t: string)
    decreases |t|
  {
    if t == [] then true
    else if t[0] == '"' then |t| >= 2 && t[1] == '"' && QuotesPaired(t[2..])
    else QuotesPaired(t[1..])
  }

  /** The quoted identifier: `"` + the name with every `"` doubled + `"`. */
  function QuoteIdent(name: string): (r: string)
    ensures |r| >= 2 && r[0] == '"' && r[|r| - 1] == '"'
  {
    "\"" + DoubleQuotes(name) + "\""
  }

  /** Un-doubling the inside of the quotes gives back the table name. */
  lemma {:induction false} UndoubleDouble(s: string)
    ensures UndoubleQuotes(DoubleQuotes(s)) == s
  {
    if s != [] {
      UndoubleDouble(s[1..]);
      if s[0] == '"' {
        assert ("\"\"" + DoubleQuotes(s[1..]))[2..] == DoubleQuotes(s[1..]);
      } else {
        assert ([s[0]] + DoubleQuotes(s[1..]))[1..] == DoubleQuotes(s[1..]);
      }
    }
  }

  /** The inside of the quotes has no lone `"`. */
  lemma {:induction false} DoubleQuotesPaired(s: string)
    ensures QuotesPaired(DoubleQuotes(s))
  {
    if s != [] {
      DoubleQuotesPaired(s[1..]);
      if s[0] == '"' {
        assert ("\"\"" + DoubleQuotes(s[1..]))[2..] == DoubleQuotes(s[1..]);
      } else {
        assert ([s[0]] + DoubleQuotes(s[1..]))[1..] == DoubleQuotes(s[1..]);
      }
    }
  }

  /** Conversely every paired text is the doubling of exactly one name, its un-doubling. */
  lemma {:induction false} DoubleUndouble(t: string)
    requires QuotesPaired(t)
    ensures DoubleQuotes(UndoubleQuotes(t)) == t
    decreases |t|
  {
    if t != [] {
      if t[0] == '"' {
        DoubleUndouble(t[2..]);
        assert ("\"" + UndoubleQuotes(t[2..]))[1..] == UndoubleQuotes(t[2..]);
        assert t == "\"\"" + t[2..];
      } else {
        DoubleUndouble(t[1..]);
        assert ([t[0]] + UndoubleQuotes(t[1..]))[1..] == UndoubleQuotes(t[1..]);
        assert t == [t[0]] + t[1..];
      }
    }
  }

  /** Different table names give different quoted identifiers. */
  lemma QuoteIdentInjective(a: string, b: string)
    requires QuoteIdent(a) == QuoteIdent(b)
    ensures a == b
  {
    var qa := QuoteIdent(a);
    assert DoubleQuotes(a) == qa[1..|qa| - 1];
    assert DoubleQuotes(b) == qa[1..|qa| - 1];
    UndoubleDouble(a);
    UndoubleDouble(b);
  }

  // ---------------------------------------------------------------------------
  // The export query

  // The clauses are built from pieces so that the placeholder-counting lemmas
  // below can count `$` piece by piece; the texts are the program's literals.
  const SelectPrefix: string := "SELECT * FROM "
  const WhereCreatedAt: string := " WHERE " + "created_at "
  const BetweenClause: string := WhereCreatedAt + "BETWEEN " + "$1" + " AND " + "$2"
  const SinceClause: string := WhereCreatedAt + ">= " + "$1"
  const UntilClause: string := WhereCreatedAt + "<= " + "$1"
  const OrderSuffix: string := " ORDER BY created_at DESC"

  /** A query-string bound: present and truthy, so an empty string counts as absent. */
  predicate Given(bound: Option<string>) {
    bound.Some? && bound.value != ""
  }

  /** The `WHERE` clause chosen by the bounds that are given. */
  function DateClause(startDate: Option<string>, endDate: Option<string>): string {
    if Given(startDate) && Given(endDate) then BetweenClause
    else if Given(startDate) then SinceClause
    else if Given(endDate) then UntilClause
    else ""
  }

  /** The number of `$` characters of `s`. */
  function CountDollars(s: string): (n: nat)
    ensures n <= |s|
  {
    if s == [] then 0 else (if s[0] == '$' then 1 else 0) + CountDollars(s[1..])
  }

  lemma {:induction false} CountDollarsConcat(a: string, b: string)
    ensures CountDollars(a + b) == CountDollars(a) + CountDollars(b)
  {
    if a == [] {
      assert a + b == b;
    } else {
      assert (a + b)[0] == a[0];
      assert (a + b)[1..] == a[1..] + b;
      CountDollarsConcat(a[1..], b);
    }
  }

  /**
   * The SQL text of `exportTable` and the texts handed to `new Date(...)` as
   * its parameters, in placeholder order.
   */
  method BuildExportQuery(tableName: string, startDate: Option<string>, endDate: Option<string>)
    returns (query: string, params: seq<string>)
    ensures query == SelectPrefix + QuoteIdent(tableName) + DateClause(startDate, endDate) + OrderSuffix
    ensures Given(startDate) && Given(endDate) ==> params == [startDate.value, endDate.value]
    ensures Given(startDate) && !Given(endDate) ==> params == [startDate.value]
    ensures !Given(startDate) && Given(endDate) ==> params == [endDate.value]
    ensures !Given(startDate) && !Given(endDate) ==> params == []
    ensures CountDollars(DateClause(startDate, endDate)) == |params|
  {
    query := SelectPrefix + QuoteIdent(tableName);
    params := [];
    if Given(startDate) && Given(endDate) {
      query := query + BetweenClause;
      params := params + [startDate.value, endDate.value];
      BetweenHasTwo();
    } else if Given(startDate) {
      query := query + SinceClause;
      params := params + [startDate.value];
      SinceHasOne();
    } else if Given(endDate) {
      query := query + UntilClause;
      params := params + [endDate.value];
      UntilHasOne();
    }
    query := query + OrderSuffix;
  }

  lemma BetweenHasTwo()
    ensures CountDollars(BetweenClause) == 2
  {
    var a, b, c, d := WhereCreatedAt + "BETWEEN ", "$1", " AND ", "$2";
    CountDollarsConcat(a + b + c, d);
    CountDollarsConcat(a + b, c);
    CountDollarsConcat(a, b);
    CountDollarsConcat(WhereCreatedAt, "BETWEEN ");
    WhereHasNone();
    KeywordsHaveNone();
    OnePlaceholder('1');
    OnePlaceholder('2');
  }

  lemma SinceHasOne()
    ensures CountDollars(SinceClause) == 1
  {
    CountDollarsConcat(WhereCreatedAt + ">= ", "$1");
    CountDollarsConcat(WhereCreatedAt, ">= ");
    WhereHasNone();
    KeywordsHaveNone();
    OnePlaceholder('1');
  }

  lemma UntilHasOne()
    ensures CountDollars(UntilClause) == 1
  {
    CountDollarsConcat(WhereCreatedAt + "<= ", "$1");
    CountDollarsConcat(WhereCreatedAt, "<= ");
    WhereHasNone();
    KeywordsHaveNone();
    OnePlaceholder('1');
  }

  lemma KeywordsHaveNone()
    ensures CountDollars("BETWEEN ") == 0 && CountDollars(" AND ") == 0
    ensures CountDollars(">= ") == 0 && CountDollars("<= ") == 0
  {
    NoDollars("BETWEEN ");
    NoDollars(" AND ");
    NoDollars(">= ");
    NoDollars("<= ");
  }

  lemma WhereHasNone()
    ensures CountDollars(WhereCreatedAt) == 0
  {
    CountDollarsConcat(" WHERE ", "created_at ");
    WhereWordHasNone();
    ColumnHasNone();
  }

  lemma WhereWordHasNone()
    ensures CountDollars(" WHERE ") == 0
  {
    NoDollars(" WHERE ");
  }

  lemma ColumnHasNone()
    ensures CountDollars("created_at ") == 0
  {
    NoDollars("created_at ");
  }

  lemma OnePlaceholder(d: char)
    requires d != '$'
    ensures CountDollars(['$', d]) == 1
  {
    assert ['$', d][1..] == [d];
    assert [d][1..] == [];
  }

  lemma {:induction false} NoDollars(s: string)
    requires forall i :: 0 <= i < |s| ==> s[i] != '$'
    ensures CountDollars(s) == 0
  {
    if s != [] {
      NoDollars(s[1..]);
    }
  }

  /**
   * Whatever the bounds, the query starts with the select of the quoted table
   * and ends with the descending order on `created_at`; the clause between has
   * as many placeholders as there are parameters.
   */
  lemma ExportQueryShape(tableName: string, startDate: Option<string>, endDate: Option<string>)
    ensures var clause := DateClause(startDate, endDate);
      && CountDollars(clause) == (if Given(startDate) then 1 else 0) + (if Given(endDate) then 1 else 0)
      && (clause == "" <==> !Given(startDate) && !Given(endDate))
  {
    if Given(startDate) && Given(endDate) { BetweenHasTwo(); }
    else if Given(startDate) { SinceHasOne(); }
    else if Given(endDate) { UntilHasOne(); }
  }
}
