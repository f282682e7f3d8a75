/** The relational OData handler as an object: the per-table maps it fills from the database
    catalog when it is created, and the operations that read them to build the statements of
    the OData requests (reading a table page, counting, reading by key, inserting, updating,
    deleting). Executing a statement is outside the model: an operation returns the statement
    it would prepare, and reading a result set takes its rows as a parameter. */
module RdbmsHandler {
  import opened Common
  import opened Text
  import opened Entries
  import opened Clauses
  import opened RdbmsSql
  import opened Pagination
  import opened RdbmsCatalog
  import opened RdbmsReferences

  /** One `tblname` element of the OData configuration: the table, its schema attribute (absent
      when not given) and its column elements. */
  datatype TableConfig = TableConfig(name: string, schema: Option<string>, columns: seq<ColumnConfig>)

  /** What the database catalog reports for one table. */
  datatype TableCatalog = TableCatalog(columns: seq<CatalogColumn>, exportedKeys: seq<ForeignKeyRow>, primaryKeys: seq<string>)

  /** One `$orderby` item: the column as the filter visitor renders it, and its direction. */
  datatype OrderByItem = OrderByItem(column: string, descending: bool)

  /** The INSERT and whether it is prepared to return generated keys. */
  datatype InsertPlan = InsertPlan(statement: Statement, returnGeneratedKeys: bool)

  /** A count request's statement, when one is issued, and the total it reports. */
  datatype CountResult = CountResult(query: Option<string>, total: int)

  /** Java's string concatenation of a schema that may be null. */
  function SchemaText(schema: Option<string>): string {
    match schema
    case Some(s) => s
    case None => "null"
  }

  /** The key of a table's column configuration: schema, a dot, the table. */
  function ColumnsConfigKey(schema: Option<string>, table: string): string {
    SchemaText(schema) + "." + table
  }

  /** The column types configured for `table` under the key of its schema, none when the
      configuration lists no columns for it. */
  function ColumnTypes(schemas: map<string, string>, columnsConfig: map<string, seq<ColumnConfig>>, table: string): map<string, string> {
    var key := ColumnsConfigKey(Lookup(schemas, table), table);
    if key in columnsConfig then ConfiguredTypes(columnsConfig[key]) else map[]
  }

  /** `oDataTableSchema` after the configuration's `put(tblname, schemaname)` calls: each table
      has the schema of its last configuration; a table whose last configuration names no
      schema has none. */
  function TableSchemas(configs: seq<TableConfig>): map<string, string> {
    if |configs| == 0 then map[]
    else
      var schemas := TableSchemas(configs[..|configs| - 1]);
      var config := configs[|configs| - 1];
      match config.schema
      case Some(s) => schemas[config.name := s]
      case None => schemas - {config.name}
  }

  /** `oDataColumnsConfig` after the configuration's `put(schema + "." + tblname, columns)`
      calls: each key holds the columns of the last configuration with that key. */
  function ColumnsConfigs(configs: seq<TableConfig>): map<string, seq<ColumnConfig>> {
    if |configs| == 0 then map[]
    else
      var config := configs[|configs| - 1];
      ColumnsConfigs(configs[..|configs| - 1])[ColumnsConfigKey(config.schema, config.name) := config.columns]
  }

  /** Only configured tables have a schema. */
  lemma {:induction false} TableSchemasConfigured(configs: seq<TableConfig>, t: string)
    requires t in TableSchemas(configs)
    ensures exists k :: 0 <= k < |configs| && configs[k].name == t
  {
    var init := configs[..|configs| - 1];
    if t != configs[|configs| - 1].name {
      TableSchemasConfigured(init, t);
      var k :| 0 <= k < |init| && init[k].name == t;
      assert configs[k] == init[k];
    }
  }

  /** The column configuration holds exactly the keys of the configured tables. */
  lemma {:induction false} ColumnsConfigsKeys(configs: seq<TableConfig>, key: string)
    ensures key in ColumnsConfigs(configs) <==>
      exists k :: 0 <= k < |configs| && ColumnsConfigKey(configs[k].schema, configs[k].name) == key
  {
    if |configs| > 0 {
      var init := configs[..|configs| - 1];
      ColumnsConfigsKeys(init, key);
      assert forall k :: 0 <= k < |init| ==> init[k] == configs[k];
    }
  }

  /** A table configured last under its name has its own schema. */
  lemma {:induction false} TableSchemaIsLast(configs: seq<TableConfig>, k: int)
    requires 0 <= k < |configs|
    requires forall j :: k < j < |configs| ==> configs[j].name != configs[k].name
    ensures Lookup(TableSchemas(configs), configs[k].name) == configs[k].schema
  {
    if k < |configs| - 1 {
      TableSchemaIsLast(configs[..|configs| - 1], k);
    }
  }

  /** A configuration that is the last with its schema-qualified key has its columns stored. */
  lemma {:induction false} ColumnsConfigIsLast(configs: seq<TableConfig>, k: int)
    requires 0 <= k < |configs|
    requires forall j :: k < j < |configs| ==>
      ColumnsConfigKey(configs[j].schema, configs[j].name) != ColumnsConfigKey(configs[k].schema, configs[k].name)
    ensures ColumnsConfigKey(configs[k].schema, configs[k].name) in ColumnsConfigs(configs)
    ensures ColumnsConfigs(configs)[ColumnsConfigKey(configs[k].schema, configs[k].name)] == configs[k].columns
  {
    if k < |configs| - 1 {
      ColumnsConfigIsLast(configs[..|configs| - 1], k);
    }
  }

  /** Parsing one more table configuration. */
  lemma ParseStep(configs: seq<TableConfig>, i: int)
    requires 0 <= i < |configs|
    ensures TableSchemas(configs[..i + 1]) ==
      match configs[i].schema
      case Some(s) => TableSchemas(configs[..i])[configs[i].name := s]
      case None => TableSchemas(configs[..i]) - {configs[i].name}
    ensures ColumnsConfigs(configs[..i + 1])
      == ColumnsConfigs(configs[..i])[ColumnsConfigKey(configs[i].schema, configs[i].name) := configs[i].columns]
  {
    assert configs[..i + 1][..i] == configs[..i];
  }

  /** What the parsed configuration holds for each table: the schema of the last configuration
      of its name, and under each schema-qualified key the columns of the last configuration
      with that key. */
  lemma ParsedConfiguration(configs: seq<TableConfig>)
    ensures forall k :: 0 <= k < |configs| && (forall j :: k < j < |configs| ==> configs[j].name != configs[k].name) ==>
      Lookup(TableSchemas(configs), configs[k].name) == configs[k].schema
    ensures forall k :: 0 <= k < |configs| ==> ColumnsConfigKey(configs[k].schema, configs[k].name) in ColumnsConfigs(configs)
    ensures forall k :: 0 <= k < |configs|
              && (forall j :: k < j < |configs| ==>
                    ColumnsConfigKey(configs[j].schema, configs[j].name) != ColumnsConfigKey(configs[k].schema, configs[k].name))
              ==> ColumnsConfigs(configs)[ColumnsConfigKey(configs[k].schema, configs[k].name)] == configs[k].columns
  {
    forall k | 0 <= k < |configs|
      ensures ColumnsConfigKey(configs[k].schema, configs[k].name) in ColumnsConfigs(configs)
    {
      ColumnsConfigsKeys(configs, ColumnsConfigKey(configs[k].schema, configs[k].name));
    }
    forall k | 0 <= k < |configs| && (forall j :: k < j < |configs| ==> configs[j].name != configs[k].name)
      ensures Lookup(TableSchemas(configs), configs[k].name) == configs[k].schema
    {
      TableSchemaIsLast(configs, k);
    }
    forall k | 0 <= k < |configs|
        && (forall j :: k < j < |configs| ==>
              ColumnsConfigKey(configs[j].schema, configs[j].name) != ColumnsConfigKey(configs[k].schema, configs[k].name))
      ensures ColumnsConfigs(configs)[ColumnsConfigKey(configs[k].schema, configs[k].name)] == configs[k].columns
    {
      ColumnsConfigIsLast(configs, k);
    }
  }

  /** The `<column>` elements of a table's last configuration decide its configured column types,
      the column map that `readTableColumnMetaData` filters by, unless a later configuration of
      another table spells the same schema-qualified key (`a.b` + `c` and `a` + `b.c`). */
  lemma ConfiguredByLastConfig(configs: seq<TableConfig>, k: int)
    requires 0 <= k < |configs|
    requires forall j :: k < j < |configs| ==> configs[j].name != configs[k].name
    requires forall j :: k < j < |configs| ==>
      ColumnsConfigKey(configs[j].schema, configs[j].name) != ColumnsConfigKey(configs[k].schema, configs[k].name)
    ensures ColumnTypes(TableSchemas(configs), ColumnsConfigs(configs), configs[k].name) == ConfiguredTypes(configs[k].columns)
  {
    TableSchemaIsLast(configs, k);
    ColumnsConfigIsLast(configs, k);
  }

  /** The type map after `addDataType(table, row.name, row.dataType)` for each of `rows`. */
  function WithTypes(m: map<string, seq<ColumnType>>, table: string, rows: seq<CatalogColumn>): map<string, seq<ColumnType>> {
    if |rows| == 0 then m
    else
      var before := WithTypes(m, table, rows[..|rows| - 1]);
      var last := rows[|rows| - 1];
      before[table := PutType(TableTypes(before, table), last.name, last.dataType)]
  }

  /** Recording types for `table` leaves every other table's types as they were, keeps every
      column `table` already had, and gives each recorded row's column a type. */
  lemma {:induction false} WithTypesSpec(m: map<string, seq<ColumnType>>, table: string, rows: seq<CatalogColumn>)
    ensures forall t :: t != table ==> TableTypes(WithTypes(m, table, rows), t) == TableTypes(m, t)
    ensures forall c :: c in ColumnsOf(TableTypes(m, table)) ==> c in ColumnsOf(TableTypes(WithTypes(m, table, rows), table))
    ensures forall k :: 0 <= k < |rows| ==> rows[k].name in ColumnsOf(TableTypes(WithTypes(m, table, rows), table))
  {
    if |rows| > 0 {
      var init := rows[..|rows| - 1];
      WithTypesSpec(m, table, init);
      var r := WithTypes(m, table, rows);
      var last := rows[|rows| - 1];
      var before := ColumnsOf(TableTypes(WithTypes(m, table, init), table));
      var after := ColumnsOf(TableTypes(r, table));
      assert forall c :: c in before ==> c in after by {
        PutTypeColumns(TableTypes(WithTypes(m, table, init), table), last.name, last.dataType);
      }
      assert last.name in after by {
        PutTypeColumns(TableTypes(WithTypes(m, table, init), table), last.name, last.dataType);
      }
      forall k | 0 <= k < |rows|
        ensures rows[k].name in after
      {
        if k < |rows| - 1 {
          assert init[k] == rows[k];
        }
      }
    }
  }

  /** The order terms of `getOrderBy`: the column and its direction. */
  function OrderTerm(item: OrderByItem): string {
    item.column + (if item.descending then " DESC" else " ASC")
  }

  /** `getOrderBy`: one term per item, in request order. */
  method GetOrderBy(items: seq<OrderByItem>) returns (orders: seq<string>)
    ensures |orders| == |items|
    ensures forall k :: 0 <= k < |items| ==> orders[k] == OrderTerm(items[k])
    ensures forall k :: 0 <= k < |items| ==> (EndsWith(orders[k], " DESC") <==> items[k].descending)
  {
    orders := [];
    var i := 0;
    while i < |items|
      invariant 0 <= i <= |items|
      invariant |orders| == i
      invariant forall k :: 0 <= k < i ==> orders[k] == OrderTerm(items[k])
    {
      var direction := if items[i].descending then " DESC" else " ASC";
      orders := orders + [items[i].column + direction];
      i := i + 1;
    }
    forall k | 0 <= k < |items| ensures EndsWith(orders[k], " DESC") <==> items[k].descending {
      DirectionSuffix(items[k]);
    }
  }

  /** An ascending term never ends in " DESC": the direction can be read back from the term. */
  lemma DirectionSuffix(item: OrderByItem)
    ensures EndsWith(OrderTerm(item), " DESC") <==> item.descending
  {
    var term := OrderTerm(item);
    if !item.descending && |term| >= 5 {
      assert term[|term| - 4..] == " ASC";
      assert term[|term| - 5..][1] == term[|term| - 4] == ' ';
    }
  }

  /** The `ORDER BY` part of a page query: nothing without `$orderby`. */
  function OrderClause(orderBy: Option<seq<OrderByItem>>): (r: string)
    ensures LeadingSpaceOrEmpty(r)
  {
    match orderBy
    case None => ""
    case Some(items) => " order by " + Join(MapSeq(items, OrderTerm), ", ")
  }

  /** The `WHERE` part: the filter expression as the filter visitor renders it. */
  function WhereClause(filter: Option<string>): string {
    match filter
    case None => ""
    case Some(expression) => " where " + expression
  }

  /** The schema qualifier of a table: none for the configured no-schema marker. */
  function SchemaPrefix(schema: string, noSchema: string): string {
    if schema == noSchema then "" else schema + "."
  }

  /** `createDataEntryCollectionFromRS` for one row: every column of the type map with its value
      in the row, then the entity tag computed from those values. */
  function RowEntity(table: string, types: seq<ColumnType>, row: Entry, etag: (string, Entry) -> string): (e: Entry)
    ensures forall c :: c in ColumnsOf(types) && c != "ETag" ==> e.GetValue(c) == row.GetValue(c)
    ensures e.GetValue("ETag") == Some(etag(table, CopyColumns(ColumnsOf(types), row)))
    ensures forall n :: n in e.Names() <==> n in ColumnsOf(types) || n == "ETag"
  {
    var values := CopyColumns(ColumnsOf(types), row);
    values.AddValue("ETag", Some(etag(table, values)))
  }

  /** The handler's state. The maps hold what the catalog reported for each configured table;
      the configuration fields hold the parsed OData configuration. */
  class RdbmsHandler {
    var rdbmsDataTypes: map<string, seq<ColumnType>>
    var tableMetaData: map<string, seq<DataColumn>>
    var primaryKeys: map<string, seq<string>>
    var navigationProperties: map<string, seq<NavigationEdge>>
    /** The configured tables that the catalog holds. */
    const tableList: seq<string>
    /** The parsed OData configuration, fixed by the constructor. */
    const oDataTableList: seq<string>
    const oDataTableSchema: map<string, string>
    const oDataColumnsConfig: map<string, seq<ColumnConfig>>
    const oDataMaxLimit: int
    /** The database product name the connection's metadata reports. */
    const productName: string
    /** The value of the configuration's no-schema marker. */
    const noSchema: string

    /** The configured column types of `table`, looked up under its schema. */
    function Configured(table: string): map<string, string> {
      ColumnTypes(oDataTableSchema, oDataColumnsConfig, table)
    }

    /** Every published column of a listed table has a JDBC type in the type map. */
    predicate MetadataTyped()
      reads this
    {
      Typed(tableMetaData, rdbmsDataTypes, tableList)
    }

    /** Reads the parsed OData configuration: each table's schema and columns, in order, and the
        list of configured tables that the catalog holds (the user's own schema on Oracle). The
        metadata maps stay empty here; `Create` goes on to read them. */
    constructor(configs: seq<TableConfig>, maxLimit: int, productName: string, userName: string, noSchema: string,
                catalogTables: Option<string> -> seq<string>)
      ensures this.productName == productName && this.noSchema == noSchema && oDataMaxLimit == maxLimit
      ensures |oDataTableList| == |configs| && forall k :: 0 <= k < |configs| ==> oDataTableList[k] == configs[k].name
      ensures forall t :: t in tableList <==> t in catalogTables(TableSchemaPattern(productName, userName)) && t in oDataTableList
      ensures forall k :: 0 <= k < |configs| && (forall j :: k < j < |configs| ==> configs[j].name != configs[k].name) ==>
        Lookup(oDataTableSchema, configs[k].name) == configs[k].schema
      ensures forall k :: 0 <= k < |configs| ==> ColumnsConfigKey(configs[k].schema, configs[k].name) in oDataColumnsConfig
      ensures forall k :: 0 <= k < |configs|
                && (forall j :: k < j < |configs| ==>
                      ColumnsConfigKey(configs[j].schema, configs[j].name) != ColumnsConfigKey(configs[k].schema, configs[k].name))
                ==> oDataColumnsConfig[ColumnsConfigKey(configs[k].schema, configs[k].name)] == configs[k].columns
      ensures oDataTableSchema == TableSchemas(configs) && oDataColumnsConfig == ColumnsConfigs(configs)
      ensures tableList == Filter(catalogTables(TableSchemaPattern(productName, userName)), t => t in oDataTableList)
      ensures rdbmsDataTypes == map[] && tableMetaData == map[] && primaryKeys == map[] && navigationProperties == map[]
    {
      this.productName := productName;
      this.noSchema := noSchema;
      oDataMaxLimit := maxLimit;
      var names: seq<string> := [];
      var schemas: map<string, string> := map[];
      var columns: map<string, seq<ColumnConfig>> := map[];
      var i := 0;
      while i < |configs|
        invariant 0 <= i <= |configs|
        invariant |names| == i && forall k :: 0 <= k < i ==> names[k] == configs[k].name
        invariant schemas == TableSchemas(configs[..i]) && columns == ColumnsConfigs(configs[..i])
      {
        ParseStep(configs, i);
        var config := configs[i];
        names := names + [config.name];
        schemas := match config.schema
          case Some(s) => schemas[config.name := s]
          case None => schemas - {config.name};
        columns := columns[ColumnsConfigKey(config.schema, config.name) := config.columns];
        i := i + 1;
      }
      assert configs[..|configs|] == configs;
      ParsedConfiguration(configs);
      var tables := GenerateTableList(names, catalogTables(TableSchemaPattern(productName, userName)));
      oDataTableList := names;
      oDataTableSchema := schemas;
      oDataColumnsConfig := columns;
      tableList := tables;
      rdbmsDataTypes := map[];
      tableMetaData := map[];
      primaryKeys := map[];
      navigationProperties := map[];
    }
  
    /** `new RDBMSDataHandler(...)` as a whole: the configuration is read, then the catalog's
        metadata for every listed table. A failure to read the metadata is the constructor's
        exception, and no handler is made. */
    static method Create(configs: seq<TableConfig>, maxLimit: int, productName: string, userName: string, noSchema: string,
                         catalogTables: Option<string> -> seq<string>, catalog: string -> TableCatalog)
      returns (r: Result<RdbmsHandler>)
      ensures r.Ok? ==> fresh(r.value)
      ensures r.Ok? ==> r.value.productName == productName && r.value.noSchema == noSchema && r.value.oDataMaxLimit == maxLimit
      ensures r.Ok? ==> |r.value.oDataTableList| == |configs|
                        && forall k :: 0 <= k < |configs| ==> r.value.oDataTableList[k] == configs[k].name
      ensures r.Ok? ==> forall t :: t in r.value.tableList <==>
        t in catalogTables(TableSchemaPattern(productName, userName)) && t in r.value.oDataTableList
      ensures r.Ok? ==> r.value.tableList == Filter(catalogTables(TableSchemaPattern(productName, userName)), t => t in r.value.oDataTableList)
      ensures r.Ok? ==> r.value.oDataTableSchema == TableSchemas(configs) && r.value.oDataColumnsConfig == ColumnsConfigs(configs)
      ensures r.Ok? ==> forall t :: t in r.value.tableList ==>
        Loaded(catalog, r.value.Configured(t), r.value.tableMetaData, r.value.navigationProperties, r.value.primaryKeys, t)
      ensures r.Ok? ==> forall t :: t in r.value.tableList ==>
        Loaded(catalog, ColumnTypes(TableSchemas(configs), ColumnsConfigs(configs), t),
               r.value.tableMetaData, r.value.navigationProperties, r.value.primaryKeys, t)
      ensures r.Ok? ==>
        forall k :: (0 <= k < |configs| && configs[k].name in r.value.tableList
                     && (forall j :: k < j < |configs| ==> configs[j].name != configs[k].name)
                     && (forall j :: k < j < |configs| ==>
                           ColumnsConfigKey(configs[j].schema, configs[j].name) != ColumnsConfigKey(configs[k].schema, configs[k].name)))
                    ==> Loaded(catalog, ConfiguredTypes(configs[k].columns),
                               r.value.tableMetaData, r.value.navigationProperties, r.value.primaryKeys, configs[k].name)
      ensures r.Ok? ==> r.value.MetadataTyped()
      ensures r.Err? ==> exists k :: 0 <= k < |configs| && configs[k].name in catalogTables(TableSchemaPattern(productName, userName))
    {
      var handler := new RdbmsHandler(configs, maxLimit, productName, userName, noSchema, catalogTables);
      var loaded := handler.InitializeMetaData(catalog);
      if loaded.Err? {
        ghost var t :| t in handler.tableList && PublishedColumns(handler.Configured(t), catalog(t).columns).Err?;
        assert t in handler.oDataTableList;
        return Err(loaded.fault);
      }
      forall k | 0 <= k < |configs| && configs[k].name in handler.tableList
          && (forall j :: k < j < |configs| ==> configs[j].name != configs[k].name)
          && (forall j :: k < j < |configs| ==>
                ColumnsConfigKey(configs[j].schema, configs[j].name) != ColumnsConfigKey(configs[k].schema, configs[k].name))
        ensures Loaded(catalog, ConfiguredTypes(configs[k].columns),
                       handler.tableMetaData, handler.navigationProperties, handler.primaryKeys, configs[k].name)
      {
        ConfiguredByLastConfig(configs, k);
      }
      return Ok(handler);
    }

    /** `addDataType`: records a column's JDBC type, creating the table's map on first use. */
    method AddDataType(table: string, column: string, code: int)
      modifies this
      ensures rdbmsDataTypes == old(rdbmsDataTypes)[table := PutType(TableTypes(old(rdbmsDataTypes), table), column, code)]
      ensures TypeOf(rdbmsDataTypes[table], column) == Some(code)
      ensures tableMetaData == old(tableMetaData) && primaryKeys == old(primaryKeys)
      ensures navigationProperties == old(navigationProperties)
    {
      var tableMap := if table in rdbmsDataTypes then rdbmsDataTypes[table] else [];
      PutTypeSpec(tableMap, column, code);
      rdbmsDataTypes := rdbmsDataTypes[table := PutType(tableMap, column, code)];
    }

    /** `readTableColumnMetaData`: the published columns of `table` from its catalog rows, each
        kept column's JDBC type recorded as it is read. A configured type name that names no
        OData type ends the reading with the failure of `valueOf`. */
    method ReadTableColumnMetaData(table: string, rows: seq<CatalogColumn>) returns (r: Result<seq<DataColumn>>)
      modifies this
      ensures r == PublishedColumns(Configured(table), rows)
      ensures r.Ok? ==> rdbmsDataTypes == WithTypes(old(rdbmsDataTypes), table, KeptRows(Configured(table), rows))
      ensures tableMetaData == old(tableMetaData) && primaryKeys == old(primaryKeys)
      ensures navigationProperties == old(navigationProperties)
    {
      var schema := Lookup(oDataTableSchema, table);
      var key := ColumnsConfigKey(schema, table);
      var colTypeMap: map<string, string> := map[];
      if key in oDataColumnsConfig {
        colTypeMap := ColumnTypeMap(oDataColumnsConfig[key]);
      }
      r := ReadColumns(table, colTypeMap, rows);
    }

    /** The loop of `readTableColumnMetaData` over the catalog rows, for the configured column
        types `colTypeMap`. */
    method ReadColumns(table: string, colTypeMap: map<string, string>, rows: seq<CatalogColumn>) returns (r: Result<seq<DataColumn>>)
      modifies this
      ensures r == PublishedColumns(colTypeMap, rows)
      ensures r.Ok? ==> rdbmsDataTypes == WithTypes(old(rdbmsDataTypes), table, KeptRows(colTypeMap, rows))
      ensures tableMetaData == old(tableMetaData) && primaryKeys == old(primaryKeys)
      ensures navigationProperties == old(navigationProperties)
    {
      var columns: seq<DataColumn> := [];
      ghost var kept: seq<CatalogColumn> := [];
      var i := 1;
      var k := 0;
      while k < |rows|
        invariant 0 <= k <= |rows|
        invariant PublishedColumns(colTypeMap, rows[..k]) == Ok(columns)
        invariant kept == KeptRows(colTypeMap, rows[..k])
        invariant i == |kept| + 1
        invariant rdbmsDataTypes == WithTypes(old(rdbmsDataTypes), table, kept)
        invariant tableMetaData == old(tableMetaData) && primaryKeys == old(primaryKeys)
        invariant navigationProperties == old(navigationProperties)
      {
        var row := rows[k];
        if Kept(colTypeMap, row.name) {
          var column := MakeColumn(colTypeMap, row, i);
          if column.Err? {
            ReadFailed(colTypeMap, rows, k, columns);
            return Err(column.fault);
          }
          ReadKept(colTypeMap, rows, k, columns, column.value);
          columns := PutColumn(columns, column.value);
          assert PublishedColumns(colTypeMap, rows[..k + 1]) == Ok(columns);
          WithTypesSnoc(old(rdbmsDataTypes), table, kept, row);
          kept := kept + [row];
          AddDataType(table, row.name, row.dataType);
          i := i + 1;
        } else {
          ReadSkipped(colTypeMap, rows, k, columns);
        }
        k := k + 1;
      }
      assert rows[..|rows|] == rows;
      r := Ok(columns);
    }

    /** `initializeMetaData`: reads, for every listed table, its published columns, its exported
        foreign keys grouped by importing table, and its primary keys. */
    method InitializeMetaData(catalog: string -> TableCatalog) returns (r: Result<()>)
      modifies this
      ensures r.Ok? ==> forall t :: t in tableList ==>
        t in tableMetaData && t in primaryKeys && t in navigationProperties
        && PublishedColumns(Configured(t), catalog(t).columns) == Ok(tableMetaData[t])
        && navigationProperties[t] == GroupForeignKeys(catalog(t).exportedKeys)
        && primaryKeys[t] == catalog(t).primaryKeys
      ensures r.Ok? ==> MetadataTyped()
      ensures r.Err? ==> exists t :: t in tableList && PublishedColumns(Configured(t), catalog(t).columns).Err?
    {
      tableMetaData := map[];
      primaryKeys := map[];
      navigationProperties := map[];
      var i := 0;
      while i < |tableList|
        invariant 0 <= i <= |tableList|
        invariant forall t :: t in tableList[..i] ==>
          Loaded(catalog, Configured(t), tableMetaData, navigationProperties, primaryKeys, t)
        invariant Typed(tableMetaData, rdbmsDataTypes, tableList[..i])
      {
        var table := tableList[i];
        ghost var configured := Configured(table);
        ghost var before := rdbmsDataTypes;
        ghost var read := tableMetaData;
        ghost var navigation := navigationProperties;
        ghost var keys := primaryKeys;
        var entry := catalog(table);
        var columns := ReadTableColumnMetaData(table, entry.columns);
        if columns.Err? {
          assert table in tableList;
          return Err(columns.fault);
        }
        ghost var types := rdbmsDataTypes;
        TypedAfterReading(before, table, configured, entry.columns, read, tableList[..i], read[table := columns.value], types);
        LoadedStep(catalog, oDataTableSchema, oDataColumnsConfig, read, navigation, keys, tableList[..i], table, columns.value);
        PrefixStep(tableList, i);
        tableMetaData := tableMetaData[table := columns.value];
        var links := ReadForeignKeys(entry.exportedKeys);
        navigationProperties := navigationProperties[table := links];
        primaryKeys := primaryKeys[table := entry.primaryKeys];
        assert tableMetaData == read[table := columns.value] && rdbmsDataTypes == types;
        i := i + 1;
      }
      assert tableList[..|tableList|] == tableList;
      r := Ok(());
    }

    /** `isAvailableAutoIncrementColumns`: whether one of the table's published columns is an
        auto-increment column. */
    method IsAvailableAutoIncrementColumns(table: string) returns (r: Result<bool>)
      ensures table !in tableMetaData ==> r == Err(NullDereference)
      ensures table in tableMetaData ==>
        r == Ok(exists k :: 0 <= k < |tableMetaData[table]| && tableMetaData[table][k].autoIncrement)
    {
      if table !in tableMetaData {
        return Err(NullDereference);
      }
      var columns := tableMetaData[table];
      var k := 0;
      while k < |columns|
        invariant 0 <= k <= |columns|
        invariant forall j :: 0 <= j < k ==> !columns[j].autoIncrement
      {
        if columns[k].autoIncrement {
          return Ok(true);
        }
        k := k + 1;
      }
      return Ok(false);
    }

    /** `readTable`'s query: `$top` rows or the configured maximum, from `$skip` or the first,
        in `$orderby` order, filtered by `$filter`, in the dialect of the database. A table
        without a configured schema dereferences null. */
    method ReadTable(table: string, top: Option<int>, skip: Option<int>, orderBy: Option<seq<OrderByItem>>, filter: Option<string>)
      returns (r: Result<string>)
      ensures table !in oDataTableSchema ==> r == Err(NullDereference)
      ensures table in oDataTableSchema ==>
        r == QueryBasedOnDbType(productName, "Select * from " + SchemaPrefix(oDataTableSchema[table], noSchema) + table,
                                WhereClause(filter), top.GetOr(oDataMaxLimit), skip.GetOr(0), OrderClause(orderBy))
    {
      var limit := if top.Some? then top.value else oDataMaxLimit;
      var offset := if skip.Some? then skip.value else 0;
      var order := "";
      if orderBy.Some? {
        var orders := GetOrderBy(orderBy.value);
        assert orders == MapSeq(orderBy.value, OrderTerm);
        order := " order by " + Join(orders, ", ");
      }
      var where := if filter.Some? then " where " + filter.value else "";
      if table !in oDataTableSchema {
        return Err(NullDereference);
      }
      var prefix := if oDataTableSchema[table] == noSchema then "" else oDataTableSchema[table] + ".";
      var select := "Select * from " + prefix + table;
      r := QueryBasedOnDbType(productName, select, where, limit, offset, order);
    }

    /** `countRecords`: with `$count=true`, the count query over the filtered table and the
        total of its last row (0 for none); with `$count=false`, no query and 0. */
    method CountRecords(table: string, count: Option<bool>, filter: Option<string>, totals: seq<int>)
      returns (r: Result<CountResult>)
      ensures table !in oDataTableSchema || count.None? ==> r == Err(NullDereference)
      ensures table in oDataTableSchema && count == Some(false) ==> r == Ok(CountResult(None, 0))
      ensures table in oDataTableSchema && count == Some(true) ==>
        r.Ok? && r.value.query == Some("select count(*) as total from " + SchemaPrefix(oDataTableSchema[table], noSchema) + table + WhereClause(filter))
        && r.value.total == (if |totals| == 0 then 0 else totals[|totals| - 1])
    {
      if table !in oDataTableSchema {
        return Err(NullDereference);
      }
      var prefix := if oDataTableSchema[table] == noSchema then "" else oDataTableSchema[table] + ".";
      var where := if filter.Some? then " where " + filter.value else "";
      if count.None? {
        return Err(NullDereference);
      }
      var total := 0;
      if count.value {
        var query := "select count(*) as total from " + prefix + table + where;
        var k := 0;
        while k < |totals|
          invariant 0 <= k <= |totals|
          invariant total == if k == 0 then 0 else totals[k - 1]
        {
          total := totals[k];
          k := k + 1;
        }
        return Ok(CountResult(Some(query), total));
      }
      return Ok(CountResult(None, total));
    }

    /** `createDataEntryCollectionFromRS`: an entity per row. The table's type map is looked up
        for the first row, so a table without one fails only when a row comes back. */
    method EntitiesFromRows(table: string, rows: seq<Entry>, etag: (string, Entry) -> string) returns (r: Result<seq<Entry>>)
      ensures r.Ok? <==> table in rdbmsDataTypes || |rows| == 0
      ensures r.Ok? ==> (|r.value| == |rows|
        && forall k :: 0 <= k < |rows| ==> r.value[k] == RowEntity(table, TableTypes(rdbmsDataTypes, table), rows[k], etag))
    {
      ghost var types := TableTypes(rdbmsDataTypes, table);
      var entitySet: seq<Entry> := [];
      var k := 0;
      while k < |rows|
        invariant 0 <= k <= |rows|
        invariant k > 0 ==> table in rdbmsDataTypes
        invariant |entitySet| == k
        invariant forall j :: 0 <= j < k ==> entitySet[j] == RowEntity(table, types, rows[j], etag)
      {
        if table !in rdbmsDataTypes {
          return Err(NullDereference);
        }
        var entry := CopyRow(ColumnsOf(rdbmsDataTypes[table]), rows[k]);
        entry := entry.AddValue("ETag", Some(etag(table, entry)));
        assert entry == RowEntity(table, types, rows[k], etag);
        ghost var prev := entitySet;
        entitySet := entitySet + [entry];
        forall j | 0 <= j < k + 1
          ensures entitySet[j] == RowEntity(table, types, rows[j], etag)
        {
          if j < k {
            assert entitySet[j] == prev[j];
          }
        }
        k := k + 1;
      }
      return Ok(entitySet);
    }

    /** `insertEntityToTable`: the INSERT over the entry's columns that the table has, and
        whether generated keys are asked for. */
    method InsertEntityToTable(table: string, entry: Entry) returns (r: Result<InsertPlan>)
      ensures r.Ok? <==> (table in rdbmsDataTypes || |entry.Names()| == 0) && table in tableMetaData
      ensures r.Ok? ==>
        var types := TableTypes(rdbmsDataTypes, table);
        r.value.statement == Statement(InsertSql(table, types, entry), Positioned(1, InsertColumns(types, entry), entry, types))
        && r.value.returnGeneratedKeys == exists k :: 0 <= k < |tableMetaData[table]| && tableMetaData[table][k].autoIncrement
    {
      if table !in rdbmsDataTypes && |entry.Names()| > 0 {
        return Err(NullDereference);
      }
      var types := TableTypes(rdbmsDataTypes, table);
      var query := CreateInsertSql(table, types, entry);
      var autoIncrement := IsAvailableAutoIncrementColumns(table);
      if autoIncrement.Err? {
        return Err(autoIncrement.fault);
      }
      var bindings := BindInsert(types, entry);
      return Ok(InsertPlan(Statement(query, bindings), autoIncrement.value));
    }

    /** `readTableWithKeys`: the SELECT by key with the key entry's values. */
    method ReadTableWithKeys(table: string, keys: Entry) returns (r: Result<Statement>)
      ensures r.Ok? <==> table in rdbmsDataTypes
      ensures r.Ok? ==> r.value == Statement(ReadWithKeysSql(table, rdbmsDataTypes[table], keys),
                                             Positioned(1, InsertColumns(rdbmsDataTypes[table], keys), keys, rdbmsDataTypes[table]))
    {
      if table !in rdbmsDataTypes {
        return Err(NullDereference);
      }
      var query := CreateReadSqlWithKeys(table, rdbmsDataTypes[table], keys);
      var bindings := BindReadWithKeys(rdbmsDataTypes[table], keys);
      return Ok(Statement(query, bindings));
    }

    /** `updateEntityInTable` (no old properties) and `updateEntityInTableTransactional` (keys
        taken from the old properties). */
    method UpdateEntityInTable(table: string, newProperties: Entry, oldProperties: Option<Entry>) returns (r: Result<Statement>)
      ensures table !in primaryKeys ==> r == Err(NullDereference)
      ensures table in primaryKeys ==>
        var bindings := UpdateBindings(table, TableTypes(rdbmsDataTypes, table), primaryKeys[table], newProperties, oldProperties.GetOr(newProperties));
        (r.Ok? <==> bindings.Ok?)
        && (r.Ok? ==> r.value == Statement(UpdateSql(table, primaryKeys[table], newProperties), bindings.value))
        && (r.Err? ==> r.fault == bindings.fault)
    {
      if table !in primaryKeys {
        return Err(NullDereference);
      }
      var pKeys := primaryKeys[table];
      var query := CreateUpdateEntitySql(table, pKeys, newProperties);
      var keySource := if oldProperties.Some? then oldProperties.value else newProperties;
      var bindings := BindUpdate(table, TableTypes(rdbmsDataTypes, table), pKeys, newProperties, keySource);
      if bindings.Err? {
        return Err(bindings.fault);
      }
      return Ok(Statement(query, bindings.value));
    }

    /** `deleteEntityInTable`: the DELETE by primary key, with the entry's key values bound in
        the order of the table's column-type map. That order agrees with the WHERE clause only
        when the key list follows the map; then the bindings are those the clause needs. */
    method DeleteEntityInTable(table: string, entry: Entry) returns (r: Result<Statement>)
      ensures table !in primaryKeys || table !in rdbmsDataTypes ==> r == Err(NullDereference)
      ensures table in primaryKeys && table in rdbmsDataTypes ==>
        r == Ok(Statement(DeleteSql(table, primaryKeys[table]),
                          Positioned(1, DeleteKeyColumnsAsWritten(rdbmsDataTypes[table], primaryKeys[table]), entry, rdbmsDataTypes[table])))
      ensures r.Ok? ==> BoundColumns(r.value.bindings) == DeleteKeyColumnsAsWritten(rdbmsDataTypes[table], primaryKeys[table])
      ensures r.Ok? && DeleteKeyColumnsAsWritten(rdbmsDataTypes[table], primaryKeys[table]) == primaryKeys[table] ==>
        Ok(r.value.bindings) == DeleteBindings(rdbmsDataTypes[table], primaryKeys[table], entry)
    {
      if table !in primaryKeys || table !in rdbmsDataTypes {
        return Err(NullDereference);
      }
      var query := CreateDeleteSql(table, primaryKeys[table]);
      var bindings := BindDeleteAsWritten(rdbmsDataTypes[table], primaryKeys[table], entry);
      BoundColumnsOfPositioned(1, DeleteKeyColumnsAsWritten(rdbmsDataTypes[table], primaryKeys[table]), entry, rdbmsDataTypes[table]);
      if DeleteKeyColumnsAsWritten(rdbmsDataTypes[table], primaryKeys[table]) == primaryKeys[table] {
        DeleteBindingsAgreeInMapOrder(rdbmsDataTypes[table], primaryKeys[table], entry);
      }
      return Ok(Statement(query, bindings));
    }
  }

  /** Every published column of the listed tables that have been read has a JDBC type. */
  predicate Typed(metaData: map<string, seq<DataColumn>>, types: map<string, seq<ColumnType>>, tables: seq<string>) {
    forall t :: t in tables && t in metaData ==>
      forall k :: 0 <= k < |metaData[t]| ==> metaData[t][k].name in ColumnsOf(TableTypes(types, t))
  }

  /** What `initializeMetaData` records for `table`: the published columns for its configured
      column types, its foreign keys grouped by importing table, and its primary keys. */
  predicate Loaded(catalog: string -> TableCatalog, configured: map<string, string>, metaData: map<string, seq<DataColumn>>,
                   navigation: map<string, seq<NavigationEdge>>, primaryKeys: map<string, seq<string>>, table: string)
  {
    table in metaData && table in primaryKeys && table in navigation
    && PublishedColumns(configured, catalog(table).columns) == Ok(metaData[table])
    && navigation[table] == GroupForeignKeys(catalog(table).exportedKeys)
    && primaryKeys[table] == catalog(table).primaryKeys
  }

  /** Reading one more table keeps every column typed that was typed before, and types the
      columns just read. */
  lemma TypedAfterReading(before: map<string, seq<ColumnType>>, table: string, configured: map<string, string>,
                          rows: seq<CatalogColumn>, metaData: map<string, seq<DataColumn>>, done: seq<string>,
                          metaDataAfter: map<string, seq<DataColumn>>, after: map<string, seq<ColumnType>>)
    requires PublishedColumns(configured, rows).Ok?
    requires Typed(metaData, before, done)
    requires metaDataAfter == metaData[table := PublishedColumns(configured, rows).value]
    requires after == WithTypes(before, table, KeptRows(configured, rows))
    ensures Typed(metaDataAfter, after, done + [table])
  {
    var kept := KeptRows(configured, rows);
    var columns := PublishedColumns(configured, rows).value;
    PublishedColumnsNames(configured, rows);
    WithTypesSpec(before, table, kept);
    forall k | 0 <= k < |columns|
      ensures columns[k].name in ColumnsOf(TableTypes(after, table))
    {
      assert DataColumnNames(columns)[k] == columns[k].name;
      assert columns[k].name in DataColumnNames(columns);
      var j :| 0 <= j < |kept| && RowNames(kept)[j] == columns[k].name;
    }
  }

  /** Typing one more kept row is one more `addDataType`. */
  lemma WithTypesSnoc(m: map<string, seq<ColumnType>>, table: string, rows: seq<CatalogColumn>, row: CatalogColumn)
    ensures WithTypes(m, table, rows + [row])
      == WithTypes(m, table, rows)[table := PutType(TableTypes(WithTypes(m, table, rows), table), row.name, row.dataType)]
  {
    assert (rows + [row])[..|rows|] == rows;
  }

  /** The copy of a row's values for the given columns, one column at a time. */
  method CopyRow(columns: seq<string>, row: Entry) returns (entry: Entry)
    ensures entry == CopyColumns(columns, row)
  {
    entry := Empty;
    var j := 0;
    while j < |columns|
      invariant 0 <= j <= |columns|
      invariant entry == CopyColumns(columns[..j], row)
    {
      assert columns[..j + 1][..j] == columns[..j];
      entry := entry.AddValue(columns[j], row.GetValue(columns[j]));
      j := j + 1;
    }
    assert columns[..|columns|] == columns;
  }

  /** One element more of a prefix. */
  lemma PrefixStep<T>(s: seq<T>, i: nat)
    requires i < |s|
    ensures s[..i + 1] == s[..i] + [s[i]]
  {
  }

  /** A kept row that makes a column puts that column under its name. */
  lemma ReadKept(configured: map<string, string>, rows: seq<CatalogColumn>, k: nat, columns: seq<DataColumn>, column: DataColumn)
    requires k < |rows| && Kept(configured, rows[k].name)
    requires PublishedColumns(configured, rows[..k]) == Ok(columns)
    requires MakeColumn(configured, rows[k], |KeptRows(configured, rows[..k])| + 1) == Ok(column)
    ensures PublishedColumns(configured, rows[..k + 1]) == Ok(PutColumn(columns, column))
    ensures KeptRows(configured, rows[..k + 1]) == KeptRows(configured, rows[..k]) + [rows[k]]
  {
    PublishedStep(configured, rows, k);
  }

  /** A row that is not kept changes nothing. */
  lemma ReadSkipped(configured: map<string, string>, rows: seq<CatalogColumn>, k: nat, columns: seq<DataColumn>)
    requires k < |rows| && !Kept(configured, rows[k].name)
    requires PublishedColumns(configured, rows[..k]) == Ok(columns)
    ensures PublishedColumns(configured, rows[..k + 1]) == Ok(columns)
    ensures KeptRows(configured, rows[..k + 1]) == KeptRows(configured, rows[..k])
  {
    PublishedStep(configured, rows, k);
  }

  /** A kept row whose type name names no constant ends the reading with that failure. */
  lemma ReadFailed(configured: map<string, string>, rows: seq<CatalogColumn>, k: nat, columns: seq<DataColumn>)
    requires k < |rows| && Kept(configured, rows[k].name)
    requires PublishedColumns(configured, rows[..k]) == Ok(columns)
    requires MakeColumn(configured, rows[k], |KeptRows(configured, rows[..k])| + 1).Err?
    ensures PublishedColumns(configured, rows) == Err(MakeColumn(configured, rows[k], |KeptRows(configured, rows[..k])| + 1).fault)
  {
    PublishedStep(configured, rows, k);
    PublishedFailureSticks(configured, rows, k + 1);
  }

  /** Recording one more table keeps what was recorded for the others. */
  lemma LoadedStep(catalog: string -> TableCatalog, schemas: map<string, string>, columnsConfig: map<string, seq<ColumnConfig>>,
                   metaData: map<string, seq<DataColumn>>, navigation: map<string, seq<NavigationEdge>>,
                   primaryKeys: map<string, seq<string>>, done: seq<string>, table: string, columns: seq<DataColumn>)
    requires forall t :: t in done ==> Loaded(catalog, ColumnTypes(schemas, columnsConfig, t), metaData, navigation, primaryKeys, t)
    requires PublishedColumns(ColumnTypes(schemas, columnsConfig, table), catalog(table).columns) == Ok(columns)
    ensures forall t :: t in done + [table] ==>
      Loaded(catalog, ColumnTypes(schemas, columnsConfig, t), metaData[table := columns],
             navigation[table := GroupForeignKeys(catalog(table).exportedKeys)],
             primaryKeys[table := catalog(table).primaryKeys], t)
  {
  }
}
