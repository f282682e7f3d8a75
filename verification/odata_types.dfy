/** The `java.sql.Types` codes the handlers dispatch on, with the values the JDBC
    specification gives them. */
module JdbcTypes {
  const BIT: int := -7
  const TINYINT: int := -6
  const SMALLINT: int := 5
  const INTEGER: int := 4
  const BIGINT: int := -5
  const FLOAT: int := 6
  const REAL: int := 7
  const DOUBLE: int := 8
  const NUMERIC: int := 2
  const DECIMAL: int := 3
  const CHAR: int := 1
  const VARCHAR: int := 12
  const LONGVARCHAR: int := -1
  const DATE: int := 91
  const TIME: int := 92
  const TIMESTAMP: int := 93
  const BINARY: int := -2
  const VARBINARY: int := -3
  const LONGVARBINARY: int := -4
  const BLOB: int := 2004
  const CLOB: int := 2005
  const BOOLEAN: int := 16
  const NCHAR: int := -15
  const NVARCHAR: int := -9
  const LONGNVARCHAR: int := -16
  const NCLOB: int := 2011
  const SQLXML: int := 2009
}

/** The OData primitive types a column is published with (`ODataDataType`). */
module ODataTypes {
  import opened Common

  datatype ODataDataType =
    | BINARY | BOOLEAN | DATE | DATE_TIMEOFFSET | DECIMAL | DOUBLE | GUID
    | INT16 | INT32 | INT64 | SINGLE | STRING | TIMEOFDAY

  /** The constant's name, as `name()` gives it. */
  function Name(t: ODataDataType): string {
    match t
    case BINARY => "BINARY"
    case BOOLEAN => "BOOLEAN"
    case DATE => "DATE"
    case DATE_TIMEOFFSET => "DATE_TIMEOFFSET"
    case DECIMAL => "DECIMAL"
    case DOUBLE => "DOUBLE"
    case GUID => "GUID"
    case INT16 => "INT16"
    case INT32 => "INT32"
    case INT64 => "INT64"
    case SINGLE => "SINGLE"
    case STRING => "STRING"
    case TIMEOFDAY => "TIMEOFDAY"
  }

  /** `ODataDataType.valueOf(name)`: the constant with exactly that name; any other name is the
      enum's IllegalArgumentException, here `None`. */
  function ValueOf(name: string): (r: Option<ODataDataType>)
    ensures r.Some? ==> Name(r.value) == name
    ensures forall t: ODataDataType :: Name(t) == name ==> r == Some(t)
  {
    if name == "BINARY" then Some(BINARY)
    else if name == "BOOLEAN" then Some(BOOLEAN)
    else if name == "DATE" then Some(DATE)
    else if name == "DATE_TIMEOFFSET" then Some(DATE_TIMEOFFSET)
    else if name == "DECIMAL" then Some(DECIMAL)
    else if name == "DOUBLE" then Some(DOUBLE)
    else if name == "GUID" then Some(GUID)
    else if name == "INT16" then Some(INT16)
    else if name == "INT32" then Some(INT32)
    else if name == "INT64" then Some(INT64)
    else if name == "SINGLE" then Some(SINGLE)
    else if name == "STRING" then Some(STRING)
    else if name == "TIMEOFDAY" then Some(TIMEOFDAY)
    else None
  }
}
