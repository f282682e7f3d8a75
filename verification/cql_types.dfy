/** The Cassandra column types as the driver names them (`DataType.Name`), the OData type a
    column of each is published with (`getDataType`), and how `bindParams` turns an entry's
    text value into the value it binds for a column of each type. */
module CqlTypes {
  import opened Common
  import opened Text
  import opened Entries
  import OData = ODataTypes

  datatype CqlType =
    | ASCII | BIGINT | BLOB | BOOLEAN | COUNTER | DECIMAL | DOUBLE | FLOAT | INET | INT
    | TEXT | TIMESTAMP | UUID | VARCHAR | VARINT | TIMEUUID | LIST | SET | MAP | CUSTOM
    | UDT | TUPLE | SMALLINT | TINYINT | DATE | TIME | DURATION

  /** `getDataType`: the OData type of a column of CQL type `t`; types without a case of their
      own are published as STRING. */
  function GetDataType(t: CqlType): (r: OData.ODataDataType)
    ensures r == OData.GUID <==> t == UUID
    ensures r != OData.INT16 && r != OData.SINGLE
  {
    match t
    case ASCII => OData.STRING
    case TEXT => OData.STRING
    case VARCHAR => OData.STRING
    case TIMEUUID => OData.STRING
    case UUID => OData.GUID
    case BIGINT => OData.INT64
    case VARINT => OData.INT64
    case COUNTER => OData.INT64
    case BLOB => OData.BINARY
    case BOOLEAN => OData.BOOLEAN
    case DECIMAL => OData.DECIMAL
    case FLOAT => OData.DECIMAL
    case DOUBLE => OData.DOUBLE
    case INT => OData.INT32
    case TIMESTAMP => OData.DATE_TIMEOFFSET
    case TIME => OData.TIMEOFDAY
    case DATE => OData.DATE
    case _ => OData.STRING
  }

  /** The value `bindParams` hands the driver: null, the text itself, or the text converted by
      the Java parser of the column's type (`UUID.fromString`, `Long.parseLong`, Base64
      decoding, `Boolean.parseBoolean`, `new BigDecimal`, `Double.parseDouble`,
      `Float.parseFloat`, `Integer.parseInt` and the timestamp, time and date parsers). */
  datatype CqlValue =
    | Null
    | Text(text: string)
    | UuidOf(text: string)
    | LongOf(text: string)
    | BytesOf(text: string)
    | BooleanOf(text: string)
    | DecimalOf(text: string)
    | DoubleOf(text: string)
    | FloatOf(text: string)
    | IntOf(text: string)
    | TimestampOf(text: string)
    | TimeOf(text: string)
    | DateOf(text: string)

  /** The switch of `bindParams`: the value bound for a column of type `t`. */
  function ConvertValue(t: CqlType, value: Option<string>): (r: CqlValue)
    ensures r == Null <==> value.None?
  {
    match value
    case None => Null
    case Some(s) =>
      match t
      case UUID => UuidOf(s)
      case BIGINT => LongOf(s)
      case BLOB => BytesOf(s)
      case BOOLEAN => BooleanOf(s)
      case DECIMAL => DecimalOf(s)
      case DOUBLE => DoubleOf(s)
      case FLOAT => FloatOf(s)
      case INT => IntOf(s)
      case TIMESTAMP => TimestampOf(s)
      case TIME => TimeOf(s)
      case DATE => DateOf(s)
      case _ => Text(s)
  }

  /** A column published as STRING is bound as its own text, and a GUID column through the UUID
      parser: the two switches agree on those types. */
  lemma BindingAgreesWithPublishedType(t: CqlType, s: string)
    ensures GetDataType(t) == OData.STRING ==> ConvertValue(t, Some(s)) == Text(s)
    ensures GetDataType(t) == OData.GUID ==> ConvertValue(t, Some(s)) == UuidOf(s)
    ensures GetDataType(t) == OData.INT32 ==> ConvertValue(t, Some(s)) == IntOf(s)
  {
  }

  /** One column of the cluster's table metadata (`ColumnMetadata`): its name and type. */
  datatype ColumnMeta = ColumnMeta(name: string, cqlType: CqlType)

  function MetaNames(metaData: seq<ColumnMeta>): (r: seq<string>)
    ensures |r| == |metaData|
    ensures forall k :: 0 <= k < |metaData| ==> r[k] == metaData[k].name
  {
    seq(|metaData|, k requires 0 <= k < |metaData| => metaData[k].name)
  }

  /** The type of the first metadata column named `column`, as the search loop of `bindParams`
      finds it. */
  function TypeOfColumn(metaData: seq<ColumnMeta>, column: string): (r: Option<CqlType>)
    ensures r.Some? <==> column in MetaNames(metaData)
    ensures r.Some? ==> exists k :: 0 <= k < |metaData| && metaData[k] == ColumnMeta(column, r.value)
  {
    if |metaData| == 0 then None
    else if metaData[0].name == column then Some(metaData[0].cqlType)
    else
      assert MetaNames(metaData) == [metaData[0].name] + MetaNames(metaData[1..]);
      var r := TypeOfColumn(metaData[1..], column);
      assert r.Some? ==> exists k :: 0 <= k < |metaData| && metaData[k] == ColumnMeta(column, r.value) by {
        if r.Some? {
          var k :| 0 <= k < |metaData[1..]| && metaData[1..][k] == ColumnMeta(column, r.value);
          assert metaData[k + 1] == ColumnMeta(column, r.value);
        }
      }
      r
  }

  /** The fault `bindParams` raises for a column the table metadata does not list. */
  function MissingDataType(column: string): Fault {
    ServiceFault("Error occurred when binding data. DataType was missing for " + column + " column.")
  }

  /** `bindParams(columnName, value, values, metaData)`: appends exactly one value, the entry's
      text converted for the column's type (null for a null value, whatever the type), or
      faults when the column has no metadata. */
  method BindParam(column: string, value: Option<string>, values: seq<CqlValue>, metaData: seq<ColumnMeta>)
    returns (r: Result<seq<CqlValue>>)
    ensures r.Ok? <==> column in MetaNames(metaData)
    ensures r.Err? ==> r == Err(MissingDataType(column))
    ensures r.Ok? ==> r.value == values + [ConvertValue(TypeOfColumn(metaData, column).value, value)]
  {
    var dataType: Option<CqlType> := None;
    var k := 0;
    while k < |metaData|
      invariant 0 <= k <= |metaData|
      invariant dataType.None? ==> TypeOfColumn(metaData, column) == TypeOfColumn(metaData[k..], column)
      invariant dataType.Some? ==> dataType == TypeOfColumn(metaData, column)
    {
      if metaData[k].name == column {
        dataType := Some(metaData[k].cqlType);
        break;
      }
      assert metaData[k..][1..] == metaData[k + 1..];
      k := k + 1;
    }
    if dataType.None? {
      return Err(MissingDataType(column));
    }
    r := Ok(values + [ConvertValue(dataType.value, value)]);
  }

  /** A value to bind: the column it is bound for and the entry's value for it. */
  datatype Param = Param(column: string, value: Option<string>)

  /** The values of `columns` in `entry`, in order. */
  function ParamsOf(columns: seq<string>, entry: Entry): (r: seq<Param>)
    ensures |r| == |columns|
    ensures forall k :: 0 <= k < |columns| ==> r[k] == Param(columns[k], entry.GetValue(columns[k]))
  {
    seq(|columns|, k requires 0 <= k < |columns| => Param(columns[k], entry.GetValue(columns[k])))
  }

  function ParamColumns(params: seq<Param>): (r: seq<string>)
    ensures |r| == |params|
    ensures forall k :: 0 <= k < |params| ==> r[k] == params[k].column
  {
    seq(|params|, k requires 0 <= k < |params| => params[k].column)
  }

  /** What a run of `bindParams` calls leaves in `values`: each parameter converted and
      appended in turn, until one whose column has no metadata faults. */
  function BoundAll(values: seq<CqlValue>, params: seq<Param>, metaData: seq<ColumnMeta>): Result<seq<CqlValue>>
    decreases |params|
  {
    if |params| == 0 then Ok(values)
    else
      match TypeOfColumn(metaData, params[0].column)
      case None => Err(MissingDataType(params[0].column))
      case Some(t) => BoundAll(values + [ConvertValue(t, params[0].value)], params[1..], metaData)
  }

  /** A run succeeds exactly when every parameter's column has metadata. */
  lemma {:induction false} BoundAllSucceeds(values: seq<CqlValue>, params: seq<Param>, metaData: seq<ColumnMeta>)
    ensures BoundAll(values, params, metaData).Ok?
      <==> AllHaveTypes(params, metaData)
    decreases |params|
  {
    if |params| > 0 {
      var rest := params[1..];
      assert forall k :: 0 < k < |params| ==> params[k] == rest[k - 1];
      match TypeOfColumn(metaData, params[0].column)
      case None =>
      case Some(t) =>
        BoundAllSucceeds(values + [ConvertValue(t, params[0].value)], rest, metaData);
    }
  }

  /** A failing run faults for the first parameter whose column has no metadata. */
  lemma {:induction false} BoundAllFault(values: seq<CqlValue>, params: seq<Param>, metaData: seq<ColumnMeta>)
    requires BoundAll(values, params, metaData).Err?
    ensures exists k :: (0 <= k < |params| && params[k].column !in MetaNames(metaData)
      && BoundAll(values, params, metaData) == Err(MissingDataType(params[k].column))
      && forall j :: 0 <= j < k ==> params[j].column in MetaNames(metaData))
    decreases |params|
  {
    var rest := params[1..];
    match TypeOfColumn(metaData, params[0].column)
    case None =>
      assert params[0].column !in MetaNames(metaData);
    case Some(t) =>
      var next := values + [ConvertValue(t, params[0].value)];
      BoundAllFault(next, rest, metaData);
      var k :| 0 <= k < |rest| && rest[k].column !in MetaNames(metaData)
        && BoundAll(next, rest, metaData) == Err(MissingDataType(rest[k].column))
        && forall j :: 0 <= j < k ==> rest[j].column in MetaNames(metaData);
      assert params[k + 1] == rest[k];
      assert forall j :: 0 < j < k + 1 ==> params[j] == rest[j - 1];
  }

  /** Every parameter's column has metadata. */
  predicate AllHaveTypes(params: seq<Param>, metaData: seq<ColumnMeta>) {
    forall k :: 0 <= k < |params| ==> TypeOfColumn(metaData, params[k].column).Some?
  }

  /** The converted values of parameters whose columns all have metadata, in order. */
  function Converted(params: seq<Param>, metaData: seq<ColumnMeta>): (r: seq<CqlValue>)
    requires AllHaveTypes(params, metaData)
    ensures |r| == |params|
    ensures forall k :: 0 <= k < |params| ==>
      r[k] == ConvertValue(TypeOfColumn(metaData, params[k].column).value, params[k].value)
  {
    seq(|params|, k requires 0 <= k < |params| && TypeOfColumn(metaData, params[k].column).Some? =>
      ConvertValue(TypeOfColumn(metaData, params[k].column).value, params[k].value))
  }

  /** A successful run appends, after the values already bound, one value per parameter: the
      parameter converted for its column's type (so null exactly for a null parameter). */
  lemma {:induction false} BoundAllValues(values: seq<CqlValue>, params: seq<Param>, metaData: seq<ColumnMeta>)
    requires AllHaveTypes(params, metaData)
    ensures BoundAll(values, params, metaData) == Ok(values + Converted(params, metaData))
    decreases |params|
  {
    if |params| == 0 {
      assert values + Converted(params, metaData) == values;
    } else {
      var rest := params[1..];
      assert forall k :: 0 <= k < |rest| ==> rest[k] == params[k + 1];
      var t := TypeOfColumn(metaData, params[0].column).value;
      var next := values + [ConvertValue(t, params[0].value)];
      BoundAllValues(next, rest, metaData);
      var head := [ConvertValue(t, params[0].value)];
      var all := head + Converted(rest, metaData);
      forall k | 0 <= k < |params| ensures all[k] == Converted(params, metaData)[k] {
        if k > 0 {
          assert all[k] == Converted(rest, metaData)[k - 1];
        }
      }
      assert all == Converted(params, metaData);
      assert next + Converted(rest, metaData) == values + all;
    }
  }

  /** Binding two runs one after the other is binding their concatenation. */
  lemma {:induction false} BoundAllChain(values: seq<CqlValue>, a: seq<Param>, b: seq<Param>, metaData: seq<ColumnMeta>)
    ensures BoundAll(values, a + b, metaData)
      == match BoundAll(values, a, metaData)
         case Err(f) => Err(f)
         case Ok(v) => BoundAll(v, b, metaData)
    decreases |a|
  {
    if |a| == 0 {
      assert a + b == b;
    } else {
      assert (a + b)[0] == a[0] && (a + b)[1..] == a[1..] + b;
      match TypeOfColumn(metaData, a[0].column)
      case None =>
      case Some(t) =>
        BoundAllChain(values + [ConvertValue(t, a[0].value)], a[1..], b, metaData);
    }
  }

  /** The loop `for (column : names) if (keep(column)) bindParams(column, entry.getValue(column), …)`. */
  method BindColumns(names: seq<string>, keep: string -> bool, entry: Entry, metaData: seq<ColumnMeta>, values: seq<CqlValue>)
    returns (r: Result<seq<CqlValue>>)
    ensures r == BoundAll(values, ParamsOf(Filter(names, keep), entry), metaData)
  {
    var bound := values;
    var i := 0;
    while i < |names|
      invariant 0 <= i <= |names|
      invariant BoundAll(values, ParamsOf(Filter(names[..i], keep), entry), metaData) == Ok(bound)
    {
      ParamsStep(names, i, keep, entry);
      if keep(names[i]) {
        var step := BindParam(names[i], entry.GetValue(names[i]), bound, metaData);
        BindSnoc(values, ParamsOf(Filter(names[..i], keep), entry), Param(names[i], entry.GetValue(names[i])),
                 ParamsOf(Filter(names[i + 1..], keep), entry), metaData, bound);
        if step.Err? {
          FilterPrefixOf(names, i + 1, keep, entry);
          return step;
        }
        bound := step.value;
      }
      i := i + 1;
    }
    assert names[..|names|] == names;
    return Ok(bound);
  }

  /** The parameters of one more name: those of the prefix, then the name's own if it is kept. */
  lemma ParamsStep(names: seq<string>, i: nat, keep: string -> bool, entry: Entry)
    requires i < |names|
    ensures keep(names[i]) ==>
      ParamsOf(Filter(names[..i + 1], keep), entry) == ParamsOf(Filter(names[..i], keep), entry) + [Param(names[i], entry.GetValue(names[i]))]
    ensures !keep(names[i]) ==> ParamsOf(Filter(names[..i + 1], keep), entry) == ParamsOf(Filter(names[..i], keep), entry)
  {
    assert names[..i + 1][..i] == names[..i];
    if keep(names[i]) {
      assert Filter(names[..i + 1], keep) == Filter(names[..i], keep) + [names[i]];
      ParamsOfAppend(Filter(names[..i], keep), [names[i]], entry);
    } else {
      assert Filter(names[..i + 1], keep) == Filter(names[..i], keep);
    }
  }

  /** One more parameter after a successful run: appended when its column has metadata, and
      otherwise the fault of the run, whatever follows. */
  lemma BindSnoc(values: seq<CqlValue>, before: seq<Param>, next: Param, rest: seq<Param>,
                 metaData: seq<ColumnMeta>, bound: seq<CqlValue>)
    requires BoundAll(values, before, metaData) == Ok(bound)
    ensures next.column in MetaNames(metaData) ==>
      BoundAll(values, before + [next], metaData)
        == Ok(bound + [ConvertValue(TypeOfColumn(metaData, next.column).value, next.value)])
    ensures next.column !in MetaNames(metaData) ==>
      BoundAll(values, before + [next] + rest, metaData) == Err(MissingDataType(next.column))
  {
    BoundAllChain(values, before, [next], metaData);
    assert [next][1..] == [];
    if next.column !in MetaNames(metaData) {
      BoundAllChain(values, before + [next], rest, metaData);
    }
  }

  /** The parameters of `names` are those of a prefix followed by those of the rest. */
  lemma FilterPrefixOf(names: seq<string>, i: nat, keep: string -> bool, entry: Entry)
    requires i <= |names|
    ensures ParamsOf(Filter(names, keep), entry)
      == ParamsOf(Filter(names[..i], keep), entry) + ParamsOf(Filter(names[i..], keep), entry)
  {
    assert names == names[..i] + names[i..];
    FilterAppend(names[..i], names[i..], keep);
    ParamsOfAppend(Filter(names[..i], keep), Filter(names[i..], keep), entry);
  }

  lemma ParamsOfAppend(a: seq<string>, b: seq<string>, entry: Entry)
    ensures ParamsOf(a + b, entry) == ParamsOf(a, entry) + ParamsOf(b, entry)
  {
  }
}
