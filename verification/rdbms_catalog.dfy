/** How the relational handler turns the database catalog into its metadata: the JDBC to
    OData type table, the rules that make a `DataColumn` of a catalog row (the configured
    column filter, the configured or mapped type, auto-increment detection, the default
    scale), the grouping of exported foreign keys by importing table, and the table list. */
module RdbmsCatalog {
  import opened Common
  import opened Text
  import opened ODataTypes
  import JdbcTypes

  // ---------------------------------------------------------------------------------------
  // JDBC type to OData type

  /** The codes `getODataDataType` names explicitly. */
  const MappedCodes: set<int> := {
    JdbcTypes.INTEGER, JdbcTypes.TINYINT, JdbcTypes.SMALLINT, JdbcTypes.DOUBLE,
    JdbcTypes.VARCHAR, JdbcTypes.CHAR, JdbcTypes.LONGVARCHAR, JdbcTypes.CLOB, JdbcTypes.LONGNVARCHAR,
    JdbcTypes.NCHAR, JdbcTypes.NVARCHAR, JdbcTypes.NCLOB, JdbcTypes.SQLXML,
    JdbcTypes.BOOLEAN, JdbcTypes.BIT,
    JdbcTypes.BLOB, JdbcTypes.BINARY, JdbcTypes.LONGVARBINARY, JdbcTypes.VARBINARY,
    JdbcTypes.DATE, JdbcTypes.DECIMAL, JdbcTypes.NUMERIC, JdbcTypes.FLOAT, JdbcTypes.REAL,
    JdbcTypes.TIME, JdbcTypes.BIGINT, JdbcTypes.TIMESTAMP
  }

  /** `getODataDataType`: the OData type a column of JDBC type `code` is published with. */
  function GetODataDataType(code: int): (r: ODataDataType)
    ensures code !in MappedCodes ==> r == STRING
    ensures r != GUID
  {
    if code == JdbcTypes.INTEGER then INT32
    else if code == JdbcTypes.TINYINT || code == JdbcTypes.SMALLINT then INT16
    else if code == JdbcTypes.DOUBLE then DOUBLE
    else if code in {JdbcTypes.VARCHAR, JdbcTypes.CHAR, JdbcTypes.LONGVARCHAR, JdbcTypes.CLOB, JdbcTypes.LONGNVARCHAR,
                     JdbcTypes.NCHAR, JdbcTypes.NVARCHAR, JdbcTypes.NCLOB, JdbcTypes.SQLXML} then STRING
    else if code == JdbcTypes.BOOLEAN || code == JdbcTypes.BIT then BOOLEAN
    else if code in {JdbcTypes.BLOB, JdbcTypes.BINARY, JdbcTypes.LONGVARBINARY, JdbcTypes.VARBINARY} then BINARY
    else if code == JdbcTypes.DATE then DATE
    else if code == JdbcTypes.DECIMAL || code == JdbcTypes.NUMERIC then DECIMAL
    else if code == JdbcTypes.FLOAT || code == JdbcTypes.REAL then SINGLE
    else if code == JdbcTypes.TIME then TIMEOFDAY
    else if code == JdbcTypes.BIGINT then INT64
    else if code == JdbcTypes.TIMESTAMP then DATE_TIMEOFFSET
    else STRING
  }

  /** Every OData type but GUID is the image of some JDBC code, so the table loses no type the
      relational side can publish. */
  lemma EveryRelationalTypeReached(t: ODataDataType)
    requires t != GUID
    ensures exists code :: GetODataDataType(code) == t
  {
    match t
    case BINARY => assert GetODataDataType(JdbcTypes.BLOB) == t;
    case BOOLEAN => assert GetODataDataType(JdbcTypes.BIT) == t;
    case DATE => assert GetODataDataType(JdbcTypes.DATE) == t;
    case DATE_TIMEOFFSET => assert GetODataDataType(JdbcTypes.TIMESTAMP) == t;
    case DECIMAL => assert GetODataDataType(JdbcTypes.NUMERIC) == t;
    case DOUBLE => assert GetODataDataType(JdbcTypes.DOUBLE) == t;
    case INT16 => assert GetODataDataType(JdbcTypes.SMALLINT) == t;
    case INT32 => assert GetODataDataType(JdbcTypes.INTEGER) == t;
    case INT64 => assert GetODataDataType(JdbcTypes.BIGINT) == t;
    case SINGLE => assert GetODataDataType(JdbcTypes.REAL) == t;
    case STRING => assert GetODataDataType(JdbcTypes.VARCHAR) == t;
    case TIMEOFDAY => assert GetODataDataType(JdbcTypes.TIME) == t;
  }

  // ---------------------------------------------------------------------------------------
  // Column metadata

  /** One row of `DatabaseMetaData.getColumns`. */
  datatype CatalogColumn = CatalogColumn(
    name: string,            // COLUMN_NAME
    dataType: int,           // DATA_TYPE
    size: int,               // COLUMN_SIZE
    nullable: bool,          // NULLABLE
    defaultValue: Option<string>,  // COLUMN_DEF
    autoIncrement: string,   // IS_AUTOINCREMENT
    decimalDigits: int)      // DECIMAL_DIGITS

  /** A column of the OData configuration: its name and the name of its OData type. */
  datatype ColumnConfig = ColumnConfig(columnName: string, typeName: string)

  /** `DataColumn` as the handler fills it; precision and scale are set for numeric columns only. */
  datatype DataColumn = DataColumn(
    name: string,
    oDataType: ODataDataType,
    ordinal: int,
    nullable: bool,
    size: int,
    autoIncrement: bool,
    defaultValue: Option<string>,
    precision: Option<int>,
    scale: Option<int>)

  /** The configured columns as the name-to-type map the handler builds (a later definition of
      the same name replaces an earlier one). */
  function ConfiguredTypes(defs: seq<ColumnConfig>): (r: map<string, string>)
    ensures forall name :: name in r <==> exists j :: 0 <= j < |defs| && defs[j].columnName == name
  {
    if |defs| == 0 then map[]
    else
      var init := defs[..|defs| - 1];
      var r := ConfiguredTypes(init)[defs[|defs| - 1].columnName := defs[|defs| - 1].typeName];
      assert forall name :: name in r <==> exists j :: 0 <= j < |defs| && defs[j].columnName == name by {
        forall name ensures name in r <==> exists j :: 0 <= j < |defs| && defs[j].columnName == name {
          if name in r && name != defs[|defs| - 1].columnName {
            var j :| 0 <= j < |init| && init[j].columnName == name;
            assert defs[j].columnName == name;
          }
          if exists j :: 0 <= j < |defs| && defs[j].columnName == name {
            var j :| 0 <= j < |defs| && defs[j].columnName == name;
            if j < |init| {
              assert init[j].columnName == name;
            }
          }
        }
      }
      r
  }

  /** The type a name ends up with is the one of its last definition. */
  lemma {:induction false} ConfiguredTypeIsLast(defs: seq<ColumnConfig>, j: nat)
    requires j < |defs|
    requires forall k :: j < k < |defs| ==> defs[k].columnName != defs[j].columnName
    ensures ConfiguredTypes(defs)[defs[j].columnName] == defs[j].typeName
  {
    if j < |defs| - 1 {
      ConfiguredTypeIsLast(defs[..|defs| - 1], j);
    }
  }

  /** The `for` loop that fills `colTypeMap` from the configured columns. */
  method ColumnTypeMap(defs: seq<ColumnConfig>) returns (colTypeMap: map<string, string>)
    ensures colTypeMap == ConfiguredTypes(defs)
  {
    colTypeMap := map[];
    var j := 0;
    while j < |defs|
      invariant 0 <= j <= |defs|
      invariant colTypeMap == ConfiguredTypes(defs[..j])
    {
      assert defs[..j + 1][..j] == defs[..j];
      colTypeMap := colTypeMap[defs[j].columnName := defs[j].typeName];
      j := j + 1;
    }
    assert defs[..|defs|] == defs;
  }

  /** `IS_AUTOINCREMENT`, lower-cased, containing "yes" or "true". */
  predicate AutoIncrementFlag(flag: string) {
    Contains(ToLower(flag), "yes") || Contains(ToLower(flag), "true")
  }

  /** The flag reads the same whatever its letter case. */
  lemma AutoIncrementCaseInsensitive(flag: string)
    ensures AutoIncrementFlag(ToLower(flag)) == AutoIncrementFlag(flag)
  {
    ToLowerIdempotent(flag);
  }

  /** The drivers' spellings: "YES" and "true" mark an auto-increment column, "NO" and the
      empty string do not. */
  lemma AutoIncrementSpellings()
    ensures AutoIncrementFlag("YES") && AutoIncrementFlag("true")
    ensures !AutoIncrementFlag("NO") && !AutoIncrementFlag("")
  {
    assert ToLower("YES") == "yes";
    ContainsAt("yes", "yes", 0);
    ContainsAt("true", "true", 0);
    assert ToLower("true") == "true";
    assert ToLower("NO") == "no";
    assert !Contains("no", "yes") by {
      assert !Contains("o", "yes") by { assert !Contains("", "yes"); }
    }
    assert !Contains("no", "true") by {
      assert !Contains("o", "true") by { assert !Contains("", "true"); }
    }
  }

  /** The JDBC types that get a precision and a scale. */
  predicate IsNumericCode(code: int) {
    code == JdbcTypes.DOUBLE || code == JdbcTypes.FLOAT || code == JdbcTypes.DECIMAL
    || code == JdbcTypes.NUMERIC || code == JdbcTypes.REAL
  }

  /** A catalog column is published when it is configured, or when nothing is configured. */
  predicate Kept(configured: map<string, string>, name: string) {
    name in configured || |configured| == 0
  }

  /** The type of a published column: the mapped JDBC type when nothing is configured, the
      configured type name otherwise (`None` when that names no constant). */
  function PublishedType(configured: map<string, string>, row: CatalogColumn): (r: Option<ODataDataType>)
    requires Kept(configured, row.name)
    ensures |configured| == 0 ==> r == Some(GetODataDataType(row.dataType))
    ensures |configured| > 0 ==> r == ValueOf(configured[row.name])
  {
    if |configured| == 0 then Some(GetODataDataType(row.dataType)) else ValueOf(configured[row.name])
  }

  /** The `DataColumn` made of a kept row at position `ordinal`, or the `valueOf` failure. */
  function MakeColumn(configured: map<string, string>, row: CatalogColumn, ordinal: int): (r: Result<DataColumn>)
    requires Kept(configured, row.name)
    ensures r.Ok? <==> PublishedType(configured, row).Some?
    ensures r.Ok? ==> (r.value.name == row.name && r.value.ordinal == ordinal
                       && Some(r.value.oDataType) == PublishedType(configured, row)
                       && r.value.nullable == row.nullable && r.value.size == row.size
                       && r.value.autoIncrement == AutoIncrementFlag(row.autoIncrement)
                       && r.value.defaultValue == row.defaultValue)
    ensures r.Ok? && IsNumericCode(row.dataType) ==>
      r.value.precision == Some(row.size) && r.value.scale == Some(if row.decimalDigits == 0 then 5 else row.decimalDigits)
    ensures r.Ok? && !IsNumericCode(row.dataType) ==> r.value.precision == None && r.value.scale == None
  {
    match PublishedType(configured, row)
    case None => Err(RuntimeFault("IllegalArgumentException"))
    case Some(t) =>
      var column := DataColumn(row.name, t, ordinal, row.nullable, row.size,
                               AutoIncrementFlag(row.autoIncrement), row.defaultValue, None, None);
      if IsNumericCode(row.dataType) then
        var scale := if row.decimalDigits == 0 then 5 else row.decimalDigits;
        Ok(column.(precision := Some(row.size), scale := Some(scale)))
      else Ok(column)
  }

  /** The rows that are published, in catalog order. */
  function KeptRows(configured: map<string, string>, rows: seq<CatalogColumn>): (r: seq<CatalogColumn>)
    ensures forall k :: 0 <= k < |r| ==> Kept(configured, r[k].name)
    ensures |configured| == 0 ==> r == rows
  {
    if |rows| == 0 then []
    else
      var init := KeptRows(configured, rows[..|rows| - 1]);
      var last := rows[|rows| - 1];
      if Kept(configured, last.name) then init + [last] else init
  }

  /** The names of catalog rows, in order. */
  function RowNames(rows: seq<CatalogColumn>): (r: seq<string>)
    ensures |r| == |rows|
    ensures forall k :: 0 <= k < |rows| ==> r[k] == rows[k].name
  {
    seq(|rows|, k requires 0 <= k < |rows| => rows[k].name)
  }

  /** A catalog whose rows all have different names. */
  predicate DistinctRowNames(rows: seq<CatalogColumn>) {
    forall i, j :: 0 <= i < j < |rows| ==> rows[i].name != rows[j].name
  }

  /** A kept row is the last of its name when no later kept row has the same name. */
  predicate LastOfName(kept: seq<CatalogColumn>, j: int)
    requires 0 <= j < |kept|
  {
    forall i :: j < i < |kept| ==> kept[i].name != kept[j].name
  }

  /** The key set of a column map (`Map<String, DataColumn>`), in iteration order. */
  function DataColumnNames(columns: seq<DataColumn>): (r: seq<string>)
    ensures |r| == |columns|
    ensures forall k :: 0 <= k < |columns| ==> r[k] == columns[k].name
  {
    seq(|columns|, k requires 0 <= k < |columns| => columns[k].name)
  }

  /** A column map holds each name once. */
  predicate DistinctNames(columns: seq<DataColumn>) {
    forall i, j :: 0 <= i < j < |columns| ==> columns[i].name != columns[j].name
  }

  /** `columnMap.put(column.name, column)`: replaces the column of that name in place, and
      appends a column of a new name. */
  function PutColumn(columns: seq<DataColumn>, column: DataColumn): seq<DataColumn> {
    if |columns| == 0 then [column]
    else if columns[0].name == column.name then [column] + columns[1..]
    else [columns[0]] + PutColumn(columns[1..], column)
  }

  /** `put` on a map of distinct names keeps the names distinct: the column replaces the entry
      of its name where it stands, or is added at the end when its name is new, and every other
      entry stays as it was. */
  lemma PutColumnSpec(columns: seq<DataColumn>, column: DataColumn)
    requires DistinctNames(columns)
    ensures DataColumnNames(PutColumn(columns, column))
      == if column.name in DataColumnNames(columns) then DataColumnNames(columns) else DataColumnNames(columns) + [column.name]
    ensures DistinctNames(PutColumn(columns, column))
    ensures column.name !in DataColumnNames(columns) ==> PutColumn(columns, column) == columns + [column]
    ensures forall k :: 0 <= k < |columns| ==>
      PutColumn(columns, column)[k] == if columns[k].name == column.name then column else columns[k]
  {
    PutColumnEntries(columns, column);
    var r := PutColumn(columns, column);
    var names := DataColumnNames(columns);
    if column.name in names {
      assert DataColumnNames(r) == names;
    } else {
      assert r == columns + [column];
      assert DataColumnNames(r) == names + [column.name];
    }
  }

  /** The entries after `put`: the first entry of the column's name is replaced, and a column
      of a new name is appended. */
  lemma {:induction false} PutColumnEntries(columns: seq<DataColumn>, column: DataColumn)
    requires DistinctNames(columns)
    ensures column.name in DataColumnNames(columns) ==> |PutColumn(columns, column)| == |columns|
    ensures column.name !in DataColumnNames(columns) ==> PutColumn(columns, column) == columns + [column]
    ensures forall k :: 0 <= k < |columns| ==>
      PutColumn(columns, column)[k] == if columns[k].name == column.name then column else columns[k]
  {
    if |columns| > 0 && columns[0].name != column.name {
      var rest := columns[1..];
      var r := PutColumn(columns, column);
      PutColumnEntries(rest, column);
      assert DataColumnNames(columns) == [columns[0].name] + DataColumnNames(rest);
      assert r[1..] == PutColumn(rest, column);
      if column.name !in DataColumnNames(columns) {
        assert [columns[0]] + (rest + [column]) == columns + [column];
      }
      forall k | 0 < k < |columns|
        ensures r[k] == if columns[k].name == column.name then column else columns[k]
      {
        assert r[k] == PutColumn(rest, column)[k - 1] && rest[k - 1] == columns[k];
      }
    } else if |columns| > 0 {
      assert DataColumnNames(columns)[0] == column.name;
    }
  }

  /** The column map `readTableColumnMetaData` builds from `rows`: each kept row makes a column,
      numbered by its position among the kept rows (from 1), and puts it under its name, so that
      a later row of a name replaces an earlier one; or the first `valueOf` failure. */
  function PublishedColumns(configured: map<string, string>, rows: seq<CatalogColumn>): (r: Result<seq<DataColumn>>)
  {
    if |rows| == 0 then Ok([])
    else
      var init := rows[..|rows| - 1];
      var last := rows[|rows| - 1];
      match PublishedColumns(configured, init)
      case Err(f) => Err(f)
      case Ok(columns) =>
        if !Kept(configured, last.name) then Ok(columns)
        else match MakeColumn(configured, last, |KeptRows(configured, init)| + 1)
          case Err(f) => Err(f)
          case Ok(column) =>
            Ok(PutColumn(columns, column))
  }

  /** `columnMap` is keyed by column name: a successful read publishes distinct names, exactly the
      names of the kept rows. */
  lemma {:induction false} PublishedColumnsNames(configured: map<string, string>, rows: seq<CatalogColumn>)
    requires PublishedColumns(configured, rows).Ok?
    ensures DistinctNames(PublishedColumns(configured, rows).value)
    ensures forall n :: n in DataColumnNames(PublishedColumns(configured, rows).value) <==> n in RowNames(KeptRows(configured, rows))
  {
    if |rows| > 0 {
      var init := rows[..|rows| - 1];
      var last := rows[|rows| - 1];
      PublishedColumnsNames(configured, init);
      if Kept(configured, last.name) {
        var columns := PublishedColumns(configured, init).value;
        var column := MakeColumn(configured, last, |KeptRows(configured, init)| + 1).value;
        PutKeptColumn(columns, column, KeptRows(configured, init), last);
      }
    }
  }

  /** Putting the column of one more kept row keeps the names distinct and equal to the kept
      rows' names. */
  lemma PutKeptColumn(columns: seq<DataColumn>, column: DataColumn, kept: seq<CatalogColumn>, last: CatalogColumn)
    requires DistinctNames(columns) && column.name == last.name
    requires forall n :: n in DataColumnNames(columns) <==> n in RowNames(kept)
    ensures DistinctNames(PutColumn(columns, column))
    ensures forall n :: n in DataColumnNames(PutColumn(columns, column)) <==> n in RowNames(kept + [last])
  {
    PutColumnSpec(columns, column);
    assert RowNames(kept + [last]) == RowNames(kept) + [last.name];
  }

  /** One catalog row more: a skipped row changes nothing, a kept row puts its column or ends
      with its failure. */
  lemma PublishedStep(configured: map<string, string>, rows: seq<CatalogColumn>, k: nat)
    requires k < |rows|
    ensures KeptRows(configured, rows[..k + 1])
      == KeptRows(configured, rows[..k]) + (if Kept(configured, rows[k].name) then [rows[k]] else [])
    ensures PublishedColumns(configured, rows[..k + 1]) ==
      match PublishedColumns(configured, rows[..k])
      case Err(f) => Err(f)
      case Ok(init) =>
        if !Kept(configured, rows[k].name) then Ok(init)
        else match MakeColumn(configured, rows[k], |KeptRows(configured, rows[..k])| + 1)
          case Err(f) => Err(f)
          case Ok(column) => Ok(PutColumn(init, column))
  {
    assert rows[..k + 1][..k] == rows[..k];
  }

  /** A failure stays the result once a prefix of the rows has failed. */
  lemma {:induction false} PublishedFailureSticks(configured: map<string, string>, rows: seq<CatalogColumn>, k: nat)
    requires k <= |rows| && PublishedColumns(configured, rows[..k]).Err?
    ensures PublishedColumns(configured, rows) == PublishedColumns(configured, rows[..k])
    decreases |rows| - k
  {
    if k < |rows| {
      PublishedStep(configured, rows, k);
      PublishedFailureSticks(configured, rows, k + 1);
    } else {
      assert rows[..k] == rows;
    }
  }

  /** `column` is the column made from the kept row `j`, numbered `j + 1`, and no later kept
      row has that row's name. */
  predicate MadeFromLast(configured: map<string, string>, kept: seq<CatalogColumn>, j: int, column: DataColumn) {
    0 <= j < |kept| && LastOfName(kept, j) && Kept(configured, kept[j].name)
    && MakeColumn(configured, kept[j], j + 1) == Ok(column)
  }

  /** `column` is made from a kept row that is the last of its name. */
  ghost predicate FromLastRow(configured: map<string, string>, kept: seq<CatalogColumn>, column: DataColumn) {
    exists j :: MadeFromLast(configured, kept, j, column)
  }

  /** Each of `columns` is made from the last kept row of its name. */
  ghost predicate EachFromLastRow(configured: map<string, string>, kept: seq<CatalogColumn>, columns: seq<DataColumn>) {
    forall k :: 0 <= k < |columns| ==> FromLastRow(configured, kept, columns[k])
  }

  /** The column of the kept row `j` is among `columns`. */
  ghost predicate RowPublished(configured: map<string, string>, kept: seq<CatalogColumn>, j: int, columns: seq<DataColumn>) {
    exists k :: 0 <= k < |columns| && MadeFromLast(configured, kept, j, columns[k])
  }

  /** Every kept row that is the last of its name has its column among `columns`. */
  ghost predicate EachLastRowMade(configured: map<string, string>, kept: seq<CatalogColumn>, columns: seq<DataColumn>) {
    forall j :: 0 <= j < |kept| && LastOfName(kept, j) ==> RowPublished(configured, kept, j, columns)
  }

  /** Every published column is the column made from the last kept row of its name, numbered by
      that row's position among the kept rows; and every kept row that is the last of its name
      has its column published. */
  lemma PublishedColumnsMade(configured: map<string, string>, rows: seq<CatalogColumn>)
    requires PublishedColumns(configured, rows).Ok?
    ensures EachFromLastRow(configured, KeptRows(configured, rows), PublishedColumns(configured, rows).value)
    ensures EachLastRowMade(configured, KeptRows(configured, rows), PublishedColumns(configured, rows).value)
  {
    var after := PublishedColumns(configured, rows).value;
    var kept := KeptRows(configured, rows);
    PublishedColumnsNames(configured, rows);
    PublishedFromLastRows(configured, rows);
    forall j | 0 <= j < |kept| && LastOfName(kept, j)
      ensures RowPublished(configured, kept, j, after)
    {
      assert RowNames(kept)[j] == kept[j].name;
      assert kept[j].name in RowNames(kept);
      var k :| 0 <= k < |after| && DataColumnNames(after)[k] == kept[j].name;
      assert FromLastRow(configured, kept, after[k]);
      var i :| MadeFromLast(configured, kept, i, after[k]);
      assert kept[i].name == kept[j].name;
      assert i == j;
    }
  }

  /** The first half of `PublishedColumnsMade`, by induction on the rows. */
  lemma {:induction false} PublishedFromLastRows(configured: map<string, string>, rows: seq<CatalogColumn>)
    requires PublishedColumns(configured, rows).Ok?
    ensures EachFromLastRow(configured, KeptRows(configured, rows), PublishedColumns(configured, rows).value)
  {
    if |rows| > 0 {
      var init := rows[..|rows| - 1];
      var last := rows[|rows| - 1];
      PublishedFromLastRows(configured, init);
      var after := PublishedColumns(configured, rows).value;
      var kept := KeptRows(configured, rows);
      var before := PublishedColumns(configured, init).value;
      var keptBefore := KeptRows(configured, init);
      if !Kept(configured, last.name) {
        assert kept == keptBefore && after == before;
      } else {
        var column := MakeColumn(configured, last, |keptBefore| + 1).value;
        assert kept == keptBefore + [last];
        assert after == PutColumn(before, column);
        PublishedColumnsNames(configured, init);
        FromLastRowAfterPut(configured, keptBefore, before, last, column);
      }
    }
  }

  /** Putting the column of one more kept row keeps every column made from the last row of its
      name. */
  lemma FromLastRowAfterPut(configured: map<string, string>, keptBefore: seq<CatalogColumn>, before: seq<DataColumn>,
                            last: CatalogColumn, column: DataColumn)
    requires DistinctNames(before) && EachFromLastRow(configured, keptBefore, before)
    requires Kept(configured, last.name) && MakeColumn(configured, last, |keptBefore| + 1) == Ok(column)
    ensures EachFromLastRow(configured, keptBefore + [last], PutColumn(before, column))
  {
    var kept := keptBefore + [last];
    var after := PutColumn(before, column);
    PutColumnSpec(before, column);
    forall k | 0 <= k < |after|
      ensures FromLastRow(configured, kept, after[k])
    {
      if after[k].name == last.name {
        assert after[k] == column;
        assert MadeFromLast(configured, kept, |keptBefore|, after[k]);
      } else {
        assert k < |before| && after[k] == before[k];
        assert FromLastRow(configured, keptBefore, before[k]);
        var j :| MadeFromLast(configured, keptBefore, j, before[k]);
        assert kept[j] == keptBefore[j];
        assert MadeFromLast(configured, kept, j, after[k]);
      }
    }
  }

  /** With no configured columns every catalog row is published; when the catalog's names are
      distinct, in order, each with its mapped type and its 1-based position. */
  lemma AllColumnsWhenUnconfigured(rows: seq<CatalogColumn>)
    ensures PublishedColumns(map[], rows).Ok?
    ensures DistinctRowNames(rows) ==> |PublishedColumns(map[], rows).value| == |rows|
    ensures DistinctRowNames(rows) ==> forall k :: 0 <= k < |rows| ==>
      PublishedColumns(map[], rows).value[k].name == rows[k].name
      && PublishedColumns(map[], rows).value[k].oDataType == GetODataDataType(rows[k].dataType)
      && PublishedColumns(map[], rows).value[k].ordinal == k + 1
  {
    AllColumnsOk(rows);
    if DistinctRowNames(rows) {
      AllColumnsInOrder(rows);
    }
  }

  lemma {:induction false} AllColumnsOk(rows: seq<CatalogColumn>)
    ensures PublishedColumns(map[], rows).Ok?
  {
    if |rows| > 0 {
      AllColumnsOk(rows[..|rows| - 1]);
    }
  }

  /** With nothing configured and distinct names, every `put` adds a new column at the end. */
  lemma {:induction false} AllColumnsInOrder(rows: seq<CatalogColumn>)
    requires DistinctRowNames(rows) && PublishedColumns(map[], rows).Ok?
    ensures |PublishedColumns(map[], rows).value| == |rows|
    ensures forall k :: 0 <= k < |rows| ==> MakeColumn(map[], rows[k], k + 1) == Ok(PublishedColumns(map[], rows).value[k])
  {
    if |rows| > 0 {
      var init := rows[..|rows| - 1];
      var last := rows[|rows| - 1];
      assert rows == init + [last];
      assert DistinctRowNames(init);
      AllColumnsInOrder(init);
      var before := PublishedColumns(map[], init).value;
      assert last.name !in RowNames(init);
      var column := UnconfiguredAppends(init, last);
      MadeInOrderStep(init, last, before, column);
    }
  }

  lemma MadeInOrderStep(init: seq<CatalogColumn>, last: CatalogColumn, before: seq<DataColumn>, column: DataColumn)
    requires |before| == |init|
    requires forall k :: 0 <= k < |init| ==> MakeColumn(map[], init[k], k + 1) == Ok(before[k])
    requires MakeColumn(map[], last, |init| + 1) == Ok(column)
    ensures forall k :: 0 <= k < |init| + 1 ==> MakeColumn(map[], (init + [last])[k], k + 1) == Ok((before + [column])[k])
  {
    forall k | 0 <= k < |init| + 1
      ensures MakeColumn(map[], (init + [last])[k], k + 1) == Ok((before + [column])[k])
    {
      if k < |init| {
        assert (init + [last])[k] == init[k];
      }
    }
  }

  /** With nothing configured, a row of a new name appends its column. */
  lemma UnconfiguredAppends(init: seq<CatalogColumn>, last: CatalogColumn) returns (column: DataColumn)
    requires PublishedColumns(map[], init).Ok? && last.name !in RowNames(init)
    ensures MakeColumn(map[], last, |init| + 1) == Ok(column)
    ensures PublishedColumns(map[], init + [last]) == Ok(PublishedColumns(map[], init).value + [column])
  {
    var before := PublishedColumns(map[], init).value;
    column := MakeColumn(map[], last, |init| + 1).value;
    PublishedColumnsNames(map[], init);
    assert last.name !in DataColumnNames(before);
    PutColumnSpec(before, column);
    assert (init + [last])[..|init|] == init;
  }

  /** Two catalog rows of the same name publish one column: the later row's, with the later
      row's type and position. */
  lemma DuplicateColumnNameLastWins()
    ensures var rows := [CatalogColumn("id", JdbcTypes.INTEGER, 10, false, None, "NO", 0),
                         CatalogColumn("id", JdbcTypes.VARCHAR, 20, true, None, "NO", 0)];
      PublishedColumns(map[], rows).Ok?
      && |PublishedColumns(map[], rows).value| == 1
      && PublishedColumns(map[], rows).value[0].name == "id"
      && PublishedColumns(map[], rows).value[0].oDataType == STRING
      && PublishedColumns(map[], rows).value[0].ordinal == 2
  {
    var rows := [CatalogColumn("id", JdbcTypes.INTEGER, 10, false, None, "NO", 0),
                 CatalogColumn("id", JdbcTypes.VARCHAR, 20, true, None, "NO", 0)];
    var first := MakeColumn(map[], rows[0], 1).value;
    var second := MakeColumn(map[], rows[1], 2).value;
    assert rows[..1] == [rows[0]] && rows[..1][..0] == [];
    assert PublishedColumns(map[], rows[..1]) == Ok([first]);
    assert PublishedColumns(map[], rows) == Ok(PutColumn([first], second));
  }
  /** The rows published when some columns are configured: exactly the configured ones. */
  lemma {:induction false} KeptRowsAreConfigured(configured: map<string, string>, rows: seq<CatalogColumn>, row: CatalogColumn)
    requires |configured| > 0
    ensures row in KeptRows(configured, rows) <==> row in rows && row.name in configured
  {
    if |rows| > 0 {
      KeptRowsAreConfigured(configured, rows[..|rows| - 1], row);
      assert rows == rows[..|rows| - 1] + [rows[|rows| - 1]];
    }
  }

  // ---------------------------------------------------------------------------------------
  // Foreign keys

  /** One row of `DatabaseMetaData.getExportedKeys` for an exporting table. */
  datatype ForeignKeyRow = ForeignKeyRow(pkColumn: string, fkTable: string, fkColumn: string)

  /** `NavigationKeys`: a primary-key column of the exporting table and the importing table's
      column that refers to it. */
  datatype NavigationKey = NavigationKey(primaryKey: string, foreignKey: string)

  /** One importing table of a `NavigationTable` with its key pairs. */
  datatype NavigationEdge = NavigationEdge(table: string, keys: seq<NavigationKey>)

  /** `getTables()`: the importing tables, in the order they were added. */
  function TablesOf(edges: seq<NavigationEdge>): (r: seq<string>)
    ensures |r| == |edges|
    ensures forall k :: 0 <= k < |edges| ==> r[k] == edges[k].table
  {
    seq(|edges|, k requires 0 <= k < |edges| => edges[k].table)
  }

  /** `getNavigationKeys(table)`: the key pairs for `table`, or null. */
  function NavigationKeysOf(edges: seq<NavigationEdge>, table: string): (r: Option<seq<NavigationKey>>)
    ensures r.Some? <==> table in TablesOf(edges)
  {
    if |edges| == 0 then None
    else if edges[|edges| - 1].table == table then Some(edges[|edges| - 1].keys)
    else
      assert TablesOf(edges) == TablesOf(edges[..|edges| - 1]) + [edges[|edges| - 1].table];
      NavigationKeysOf(edges[..|edges| - 1], table)
  }

  /** The key pairs of the rows whose importing table is `table`, in row order. */
  function RowKeysFor(rows: seq<ForeignKeyRow>, table: string): seq<NavigationKey> {
    if |rows| == 0 then []
    else
      var last := rows[|rows| - 1];
      RowKeysFor(rows[..|rows| - 1], table)
      + (if last.fkTable == table then [NavigationKey(last.pkColumn, last.fkColumn)] else [])
  }

  /** The importing tables of `rows`, each once, in order of first appearance. */
  function FirstAppearances(rows: seq<ForeignKeyRow>): (r: seq<string>)
    ensures forall t :: t in r <==> exists k :: 0 <= k < |rows| && rows[k].fkTable == t
  {
    if |rows| == 0 then []
    else
      var init := FirstAppearances(rows[..|rows| - 1]);
      var last := rows[|rows| - 1];
      var r := if last.fkTable in init then init else init + [last.fkTable];
      assert forall t :: t in r <==> exists k :: 0 <= k < |rows| && rows[k].fkTable == t by {
        forall t ensures t in r <==> exists k :: 0 <= k < |rows| && rows[k].fkTable == t {
          if t in init {
            var k :| 0 <= k < |rows| - 1 && rows[..|rows| - 1][k].fkTable == t;
            assert rows[k].fkTable == t;
          }
          if exists k :: 0 <= k < |rows| && rows[k].fkTable == t {
            var k :| 0 <= k < |rows| && rows[k].fkTable == t;
            if k < |rows| - 1 {
              assert rows[..|rows| - 1][k].fkTable == t;
            }
          }
        }
      }
      r
  }

  /** The navigation table after one more row: the pair is appended to its table's list, and a
      table seen for the first time gets a new list at the end. */
  function AddNavigationKey(edges: seq<NavigationEdge>, row: ForeignKeyRow): (r: seq<NavigationEdge>)
    ensures TablesOf(r) == if row.fkTable in TablesOf(edges) then TablesOf(edges) else TablesOf(edges) + [row.fkTable]
    ensures NavigationKeysOf(edges, row.fkTable).None? ==>
      NavigationKeysOf(r, row.fkTable) == Some([NavigationKey(row.pkColumn, row.fkColumn)])
    ensures NavigationKeysOf(edges, row.fkTable).Some? ==>
      NavigationKeysOf(r, row.fkTable) == Some(NavigationKeysOf(edges, row.fkTable).value + [NavigationKey(row.pkColumn, row.fkColumn)])
    ensures forall t :: t != row.fkTable ==> NavigationKeysOf(r, t) == NavigationKeysOf(edges, t)
  {
    var key := NavigationKey(row.pkColumn, row.fkColumn);
    if |edges| == 0 then [NavigationEdge(row.fkTable, [key])]
    else
      var init := edges[..|edges| - 1];
      var last := edges[|edges| - 1];
      assert TablesOf(edges) == TablesOf(init) + [last.table];
      if last.table == row.fkTable then
        var r := init + [NavigationEdge(last.table, last.keys + [key])];
        assert r[..|r| - 1] == init;
        assert TablesOf(r) == TablesOf(init) + [last.table];
        r
      else if row.fkTable in TablesOf(init) then
        var rest := AddNavigationKey(init, row);
        var r := rest + [last];
        assert r[..|r| - 1] == rest;
        assert TablesOf(r) == TablesOf(rest) + [last.table];
        r
      else
        var r := edges + [NavigationEdge(row.fkTable, [key])];
        assert row.fkTable !in TablesOf(edges);
        assert NavigationKeysOf(edges, row.fkTable) == None;
        assert r[..|r| - 1] == edges;
        assert r[|r| - 1] == NavigationEdge(row.fkTable, [key]);
        assert NavigationKeysOf(r, row.fkTable) == Some([key]);
        assert TablesOf(r) == TablesOf(edges) + [row.fkTable];
        r
  }

  /** The navigation table `readForeignKeys` builds from `rows`. */
  function GroupForeignKeys(rows: seq<ForeignKeyRow>): seq<NavigationEdge> {
    if |rows| == 0 then [] else AddNavigationKey(GroupForeignKeys(rows[..|rows| - 1]), rows[|rows| - 1])
  }

  /** Grouping lists every importing table once, in order of first appearance, and gives each
      exactly the key pairs of its rows, in row order. */
  lemma GroupForeignKeysSpec(rows: seq<ForeignKeyRow>)
    ensures TablesOf(GroupForeignKeys(rows)) == FirstAppearances(rows)
    ensures forall t :: t in FirstAppearances(rows) ==> NavigationKeysOf(GroupForeignKeys(rows), t) == Some(RowKeysFor(rows, t))
  {
    GroupTables(rows);
    forall t | t in FirstAppearances(rows)
      ensures NavigationKeysOf(GroupForeignKeys(rows), t) == Some(RowKeysFor(rows, t))
    {
      GroupKeysOf(rows, t);
    }
  }

  lemma {:induction false} GroupTables(rows: seq<ForeignKeyRow>)
    ensures TablesOf(GroupForeignKeys(rows)) == FirstAppearances(rows)
  {
    if |rows| > 0 {
      GroupTables(rows[..|rows| - 1]);
    }
  }

  /** The keys of one table after grouping: its rows' pairs, or none when no row names it. */
  lemma {:induction false} GroupKeysOf(rows: seq<ForeignKeyRow>, t: string)
    ensures NavigationKeysOf(GroupForeignKeys(rows), t)
      == if t in FirstAppearances(rows) then Some(RowKeysFor(rows, t)) else None
  {
    if |rows| > 0 {
      var init := rows[..|rows| - 1];
      var last := rows[|rows| - 1];
      GroupKeysOf(init, t);
      var before := GroupForeignKeys(init);
      var key := NavigationKey(last.pkColumn, last.fkColumn);
      assert GroupForeignKeys(rows) == AddNavigationKey(before, last);
      if t != last.fkTable {
        assert RowKeysFor(rows, t) == RowKeysFor(init, t) + [];
        assert RowKeysFor(init, t) + [] == RowKeysFor(init, t);
        assert t in FirstAppearances(rows) <==> t in FirstAppearances(init);
        assert NavigationKeysOf(GroupForeignKeys(rows), t) == NavigationKeysOf(before, t);
        assert NavigationKeysOf(GroupForeignKeys(rows), t) == if t in FirstAppearances(rows) then Some(RowKeysFor(rows, t)) else None;
      } else if t in FirstAppearances(init) {
        assert RowKeysFor(rows, t) == RowKeysFor(init, t) + [key];
        assert t in FirstAppearances(rows);
        assert NavigationKeysOf(before, t) == Some(RowKeysFor(init, t));
        assert NavigationKeysOf(GroupForeignKeys(rows), t) == Some(RowKeysFor(rows, t));
        assert NavigationKeysOf(GroupForeignKeys(rows), t) == if t in FirstAppearances(rows) then Some(RowKeysFor(rows, t)) else None;
      } else {
        assert NavigationKeysOf(before, t) == None;
        assert NavigationKeysOf(GroupForeignKeys(rows), t) == Some([key]);
        FirstRowKeys(rows);
        assert t in FirstAppearances(rows);
        assert NavigationKeysOf(GroupForeignKeys(rows), t) == if t in FirstAppearances(rows) then Some(RowKeysFor(rows, t)) else None;
      }
    }
  }

  /** The first row naming a table gives that table one key pair. */
  lemma {:induction false} FirstRowKeys(rows: seq<ForeignKeyRow>)
    requires |rows| > 0 && rows[|rows| - 1].fkTable !in FirstAppearances(rows[..|rows| - 1])
    ensures RowKeysFor(rows, rows[|rows| - 1].fkTable)
      == [NavigationKey(rows[|rows| - 1].pkColumn, rows[|rows| - 1].fkColumn)]
  {
    var init := rows[..|rows| - 1];
    var t := rows[|rows| - 1].fkTable;
    assert forall k :: 0 <= k < |init| ==> init[k].fkTable != t;
    NoRowKeys(init, t);
  }

  lemma {:induction false} NoRowKeys(rows: seq<ForeignKeyRow>, t: string)
    requires forall k :: 0 <= k < |rows| ==> rows[k].fkTable != t
    ensures RowKeysFor(rows, t) == []
  {
    if |rows| > 0 {
      NoRowKeys(rows[..|rows| - 1], t);
    }
  }

  /** `readForeignKeys`: the `while (resultSet.next())` loop filling a navigation table. */
  method ReadForeignKeys(rows: seq<ForeignKeyRow>) returns (navigationLinks: seq<NavigationEdge>)
    ensures navigationLinks == GroupForeignKeys(rows)
  {
    navigationLinks := [];
    var i := 0;
    while i < |rows|
      invariant 0 <= i <= |rows|
      invariant navigationLinks == GroupForeignKeys(rows[..i])
    {
      assert rows[..i + 1][..i] == rows[..i];
      navigationLinks := AddNavigationKey(navigationLinks, rows[i]);
      i := i + 1;
    }
    assert rows[..|rows|] == rows;
  }

  // ---------------------------------------------------------------------------------------
  // Table list

  /** The schema `generateTableList` asks the catalog for: the user's own on Oracle, any
      schema elsewhere. */
  function TableSchemaPattern(productName: string, userName: string): (r: Option<string>)
    ensures r.Some? <==> Contains(ToLower(productName), "oracle")
    ensures r.Some? ==> r.value == userName
  {
    if Contains(ToLower(productName), "oracle") then Some(userName) else None
  }

  /** `generateTableList`: the catalog's tables that are configured, in catalog order. */
  method GenerateTableList(configured: seq<string>, catalogTables: seq<string>) returns (tableList: seq<string>)
    ensures tableList == Filter(catalogTables, t => t in configured)
    ensures forall t :: t in tableList <==> t in catalogTables && t in configured
  {
    tableList := [];
    var i := 0;
    while i < |catalogTables|
      invariant 0 <= i <= |catalogTables|
      invariant tableList == Filter(catalogTables[..i], t => t in configured)
    {
      assert catalogTables[..i + 1][..i] == catalogTables[..i];
      if catalogTables[i] in configured {
        tableList := tableList + [catalogTables[i]];
      }
      i := i + 1;
    }
    assert catalogTables[..|catalogTables|] == catalogTables;
    forall t ensures t in tableList <==> t in catalogTables && t in configured {
      FilterMembership(catalogTables, t => t in configured, t);
    }
  }
}
