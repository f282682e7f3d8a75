/** The Cassandra OData handler as an object: the table list, primary keys and column metadata it
    reads from the keyspace's metadata when it is created, the transaction flag, the prepared
    statement cache, and the operations that build and bind the statements of the OData requests.
    Executing a statement is outside the model: an operation returns the prepared statement and
    the values bound to it. */
module CassandraHandler {
  import opened Common
  import opened Text
  import opened Entries
  import opened Clauses
  import opened CqlTypes
  import opened CqlQuery
  import opened CqlStatements
  import opened StatementCache
  import OData = ODataTypes

  /** What the keyspace's metadata reports for one table: its name, its columns with their CQL
      types, and its primary-key columns in key order. */
  datatype TableMeta = TableMeta(name: string, columns: seq<ColumnMeta>, primaryKey: seq<string>)

  /** `DataColumn` as this handler fills it: name, published type and whether it may be null. */
  datatype CqlColumn = CqlColumn(name: string, oDataType: OData.ODataDataType, nullable: bool)

  /** A prepared statement and the values bound to it. */
  datatype BoundStatement = BoundStatement(statement: Prepared, values: seq<CqlValue>)

  /** A statement's text and the values bound to it, before the cache is consulted. */
  datatype Plan = Plan(query: string, values: seq<CqlValue>)

  /** What an insert prepares, and the entity it returns (with generated keys and its ETag). */
  datatype Inserted = Inserted(statement: BoundStatement, entity: Entry)

  const ReferencesMessage: string := "Cassandra datasources doesn't support references."

  // ---------------------------------------------------------------------------------------
  // The keyspace's metadata

  function TableNames(schema: seq<TableMeta>): (r: seq<string>)
    ensures |r| == |schema|
    ensures forall k :: 0 <= k < |schema| ==> r[k] == schema[k].name
  {
    seq(|schema|, k requires 0 <= k < |schema| => schema[k].name)
  }

  /** `getTable(name)`: the first table of that name, none when the keyspace has no such table. */
  function ClusterTable(schema: seq<TableMeta>, table: string): (r: Option<TableMeta>)
    ensures r.Some? <==> table in TableNames(schema)
    ensures r.Some? ==> r.value.name == table
  {
    if |schema| == 0 then None
    else if schema[0].name == table then Some(schema[0])
    else
      assert TableNames(schema) == [schema[0].name] + TableNames(schema[1..]);
      ClusterTable(schema[1..], table)
  }

  /** `generateMetaData` for one table: each column with its published type, nullable exactly
      when it is not a primary-key column. */
  function PublishedColumns(meta: TableMeta): (r: seq<CqlColumn>)
    ensures |r| == |meta.columns|
    ensures forall k :: 0 <= k < |r| ==>
      r[k] == CqlColumn(meta.columns[k].name, GetDataType(meta.columns[k].cqlType), meta.columns[k].name !in meta.primaryKey)
  {
    seq(|meta.columns|, k requires 0 <= k < |meta.columns| =>
      CqlColumn(meta.columns[k].name, GetDataType(meta.columns[k].cqlType), meta.columns[k].name !in meta.primaryKey))
  }

  /** The names of the published columns, in order. */
  function ColumnNames(columns: seq<CqlColumn>): seq<string> {
    MapSeq(columns, (c: CqlColumn) => c.name)
  }

  /** The published columns of a table carry the names of its metadata columns, in order. */
  lemma ColumnNamesOf(meta: TableMeta)
    ensures ColumnNames(PublishedColumns(meta)) == MetaNames(meta.columns)
  {
  }

  /** The map `generatePrimaryKeyList` builds over `names`: each table's primary-key columns. */
  function KeysOf(schema: seq<TableMeta>, names: seq<string>): (r: map<string, seq<string>>)
    requires forall k :: 0 <= k < |names| ==> ClusterTable(schema, names[k]).Some?
    ensures forall t :: t in r <==> t in names
    ensures forall t :: t in r ==> r[t] == ClusterTable(schema, t).value.primaryKey
  {
    if |names| == 0 then map[]
    else
      var last := names[|names| - 1];
      var r := KeysOf(schema, names[..|names| - 1])[last := ClusterTable(schema, last).value.primaryKey];
      assert names == names[..|names| - 1] + [last];
      r
  }

  /** The map `generateMetaData` builds over `names`: each table's published columns. */
  function MetaOf(schema: seq<TableMeta>, names: seq<string>): (r: map<string, seq<CqlColumn>>)
    requires forall k :: 0 <= k < |names| ==> ClusterTable(schema, names[k]).Some?
    ensures forall t :: t in r <==> t in names
    ensures forall t :: t in r ==> r[t] == PublishedColumns(ClusterTable(schema, t).value)
  {
    if |names| == 0 then map[]
    else
      var last := names[|names| - 1];
      var r := MetaOf(schema, names[..|names| - 1])[last := PublishedColumns(ClusterTable(schema, last).value)];
      assert names == names[..|names| - 1] + [last];
      r
  }

  /** Every table the keyspace lists can be looked up by name. */
  lemma ListedTablesFound(schema: seq<TableMeta>)
    ensures forall k :: 0 <= k < |TableNames(schema)| ==> ClusterTable(schema, TableNames(schema)[k]).Some?
  {
  }

  // ---------------------------------------------------------------------------------------
  // Generated keys

  /** `tableMetaData.get(table).get(name)`: the first column of that name. */
  function ColumnOf(columns: seq<CqlColumn>, name: string): (r: Option<CqlColumn>)
    ensures r.Some? ==> r.value in columns && r.value.name == name
    ensures r.None? <==> name !in ColumnNames(columns)
  {
    if |columns| == 0 then None
    else if columns[0].name == name then Some(columns[0])
    else
      assert ColumnNames(columns) == [columns[0].name] + ColumnNames(columns[1..]);
      ColumnOf(columns[1..], name)
  }

  /** A primary-key column of type GUID, the keys an insert generates when they are missing. */
  predicate GuidKey(pKeys: seq<string>, columns: seq<CqlColumn>, name: string) {
    name in pKeys && ColumnOf(columns, name).Some? && ColumnOf(columns, name).value.oDataType == OData.GUID
  }

  /** One step of the key loop of `insertEntityToTable`: a key column of type GUID without a
      value gets a random UUID; a key that is not a table column is a null dereference. */
  function FillKey(pkey: string, columns: seq<CqlColumn>, entity: Entry, newUuid: string -> string): (r: Result<Entry>)
    ensures r.Err? <==> pkey !in ColumnNames(columns)
  {
    match ColumnOf(columns, pkey)
    case None => Err(NullDereference)
    case Some(column) =>
      if column.oDataType == OData.GUID && entity.GetValue(pkey).None? then Ok(entity.AddValue(pkey, Some(newUuid(pkey))))
      else Ok(entity)
  }

  /** The key loop of `insertEntityToTable` over `pKeys`. */
  function FilledKeys(pKeys: seq<string>, columns: seq<CqlColumn>, entity: Entry, newUuid: string -> string): (r: Result<Entry>)
    ensures r.Err? ==> r.fault == NullDereference
  {
    if |pKeys| == 0 then Ok(entity)
    else
      var before :- FilledKeys(pKeys[..|pKeys| - 1], columns, entity, newUuid);
      FillKey(pKeys[|pKeys| - 1], columns, before, newUuid)
  }

  /** A non-empty sequence is its prefix and its last element. */
  lemma SplitLast<T>(s: seq<T>)
    requires |s| > 0
    ensures forall k :: 0 <= k < |s| - 1 ==> s[..|s| - 1][k] == s[k]
    ensures forall x :: x in s <==> x in s[..|s| - 1] || x == s[|s| - 1]
  {
    assert s == s[..|s| - 1] + [s[|s| - 1]];
  }

  /** Filling keys succeeds exactly when every key is a table column; then every GUID key the
      entity left null holds a fresh UUID, and every other value is the entity's. */
  lemma {:induction false} FilledKeysValues(pKeys: seq<string>, columns: seq<CqlColumn>, entity: Entry, newUuid: string -> string)
    ensures FilledKeys(pKeys, columns, entity, newUuid).Ok? <==> forall k :: 0 <= k < |pKeys| ==> pKeys[k] in ColumnNames(columns)
    ensures FilledKeys(pKeys, columns, entity, newUuid).Ok? ==> forall n ::
      FilledKeys(pKeys, columns, entity, newUuid).value.GetValue(n)
      == if entity.GetValue(n).None? && GuidKey(pKeys, columns, n) then Some(newUuid(n)) else entity.GetValue(n)
  {
    if |pKeys| > 0 {
      var init := pKeys[..|pKeys| - 1];
      var last := pKeys[|pKeys| - 1];
      FilledKeysValues(init, columns, entity, newUuid);
      SplitLast(pKeys);
      var before := FilledKeys(init, columns, entity, newUuid);
      if before.Ok? && last in ColumnNames(columns) {
        var after := FillKey(last, columns, before.value, newUuid);
        assert FilledKeys(pKeys, columns, entity, newUuid) == after;
        forall n ensures after.value.GetValue(n)
          == if entity.GetValue(n).None? && GuidKey(pKeys, columns, n) then Some(newUuid(n)) else entity.GetValue(n)
        {
        }
      }
    }
  }

  /** The key loop as written: keys in key order, each checked and filled in turn. */
  method FillKeys(pKeys: seq<string>, columns: seq<CqlColumn>, entity: Entry, newUuid: string -> string) returns (r: Result<Entry>)
    ensures r == FilledKeys(pKeys, columns, entity, newUuid)
  {
    var current := entity;
    for i := 0 to |pKeys|
      invariant FilledKeys(pKeys[..i], columns, entity, newUuid) == Ok(current)
    {
      assert pKeys[..i + 1][..i] == pKeys[..i];
      var pkey := pKeys[i];
      var column := ColumnOf(columns, pkey);
      if column.None? {
        FilledKeysValues(pKeys, columns, entity, newUuid);
        return Err(NullDereference);
      }
      if column.value.oDataType == OData.GUID && current.GetValue(pkey).None? {
        current := current.AddValue(pkey, Some(newUuid(pkey)));
      }
    }
    assert pKeys[..|pKeys|] == pKeys;
    return Ok(current);
  }

  /** `generateTableList`: the names of the keyspace's tables, in the metadata's order. */
  method TableList(schema: seq<TableMeta>) returns (tables: seq<string>)
    ensures tables == TableNames(schema)
  {
    tables := [];
    for i := 0 to |schema|
      invariant tables == TableNames(schema[..i])
    {
      assert schema[..i + 1][..i] == schema[..i];
      tables := tables + [schema[i].name];
    }
    assert schema[..|schema|] == schema;
  }

  /** `generatePrimaryKeyList`: each listed table's primary-key columns. */
  method PrimaryKeyList(schema: seq<TableMeta>, tables: seq<string>) returns (keys: map<string, seq<string>>)
    requires forall k :: 0 <= k < |tables| ==> ClusterTable(schema, tables[k]).Some?
    ensures keys == KeysOf(schema, tables)
  {
    keys := map[];
    for i := 0 to |tables|
      invariant keys == KeysOf(schema, tables[..i])
    {
      assert tables[..i + 1][..i] == tables[..i];
      keys := keys[tables[i] := ClusterTable(schema, tables[i]).value.primaryKey];
    }
    assert tables[..|tables|] == tables;
  }

  /** The inner loop of `generateMetaData`: one published column per metadata column. */
  method TableColumns(table: TableMeta) returns (columns: seq<CqlColumn>)
    ensures columns == PublishedColumns(table)
  {
    columns := [];
    for j := 0 to |table.columns|
      invariant columns == PublishedColumns(table)[..j]
    {
      var column := table.columns[j];
      columns := columns + [CqlColumn(column.name, GetDataType(column.cqlType), column.name !in table.primaryKey)];
    }
  }

  /** `generateMetaData`: each listed table's published columns. */
  method MetaData(schema: seq<TableMeta>, tables: seq<string>) returns (metadata: map<string, seq<CqlColumn>>)
    requires forall k :: 0 <= k < |tables| ==> ClusterTable(schema, tables[k]).Some?
    ensures metadata == MetaOf(schema, tables)
  {
    metadata := map[];
    for i := 0 to |tables|
      invariant metadata == MetaOf(schema, tables[..i])
    {
      assert tables[..i + 1][..i] == tables[..i];
      var columns := TableColumns(ClusterTable(schema, tables[i]).value);
      metadata := metadata[tables[i] := columns];
    }
    assert tables[..|tables|] == tables;
  }

  /** A successful run of `bindParams` calls binds one value per parameter. */
  lemma BoundLength(params: seq<Param>, metaData: seq<ColumnMeta>)
    requires BoundAll([], params, metaData).Ok?
    ensures |BoundAll([], params, metaData).value| == |params| == |ParamColumns(params)|
  {
    BoundAllSucceeds([], params, metaData);
    BoundAllValues([], params, metaData);
  }

  // ---------------------------------------------------------------------------------------
  // The handler

  class CassandraHandler {
    const configID: string
    const keyspace: string
    /** The keyspace's table metadata as the session reports it. */
    const schema: seq<TableMeta>
    /** `CassandraUtils.preserveCase`. */
    const quote: string -> string
    const tableList: seq<string>
    const primaryKeys: map<string, seq<string>>
    /** Each table's columns, in the order of the keyspace's metadata. */
    const tableMetaData: map<string, seq<CqlColumn>>
    /** The transaction flag of the calling thread. */
    var transactionAvailable: bool
    const cache: PreparedStatementCache

    /** The maps hold what the keyspace's metadata reports for every listed table, and the
        statement cache is consistent. */
    ghost predicate Valid()
      reads cache
    {
      && cache.Valid()
      && tableList == TableNames(schema)
      && (forall k :: 0 <= k < |tableList| ==> ClusterTable(schema, tableList[k]).Some?)
      && primaryKeys == KeysOf(schema, tableList)
      && tableMetaData == MetaOf(schema, tableList)
    }

    /** The constructor: the table list, then the primary keys of every listed table, then
        the columns of every listed table. */
    constructor(configID: string, keyspace: string, schema: seq<TableMeta>, quote: string -> string)
      ensures Valid()
      ensures this.configID == configID && this.keyspace == keyspace && this.schema == schema && this.quote == quote
      ensures !transactionAvailable && fresh(cache)
      ensures cache.entries == map[] && cache.preparations == []
    {
      this.configID := configID;
      this.keyspace := keyspace;
      this.schema := schema;
      this.quote := quote;
      var tables := TableList(schema);
      ListedTablesFound(schema);
      var keys := PrimaryKeyList(schema, tables);
      var metadata := MetaData(schema, tables);
      tableList := tables;
      primaryKeys := keys;
      tableMetaData := metadata;
      transactionAvailable := false;
      cache := new PreparedStatementCache();
    }

    /** Every table the keyspace reports has primary keys and columns recorded. */
    lemma KnownTables(table: string)
      requires Valid()
      ensures ClusterTable(schema, table).Some? <==> table in primaryKeys
      ensures ClusterTable(schema, table).Some? <==> table in tableMetaData
      ensures table in primaryKeys ==> primaryKeys[table] == ClusterTable(schema, table).value.primaryKey
      ensures table in tableMetaData ==> ColumnNames(tableMetaData[table]) == MetaNames(ClusterTable(schema, table).value.columns)
    {
      if table in tableMetaData {
        ColumnNamesOf(ClusterTable(schema, table).value);
      }
    }

    // -------------------------------------------------------------------------------------
    // Reading

    /** `generateCassandraQuery`, step by step. */
    method GenerateCassandraQuery(table: string, o: QueryOptions) returns (r: Result<string>)
      ensures r == CassandraQuery(table, keyspace, Lookup(primaryKeys, table), o, quote)
    {
      var query := "SELECT ";
      var select := "*";
      if o.expand {
        return Err(BadRequest(ExpandMessage));
      }
      if o.select.Some? {
        select := o.select.value;
        if '*' in select {
          select := "*";
        } else {
          var pKeysColumns := Lookup(primaryKeys, table);
          var selectArr := JavaSplit(select, ',');
          if |selectArr| == 0 {
            return Err(BadRequest(NoColumnsMessage));
          }
          if pKeysColumns.None? {
            return Err(NullDereference);
          }
          select := BuildSelectList(pKeysColumns.value, selectArr, quote);
        }
      }
      query := query + select + " FROM " + keyspace + "." + quote(table);
      var where := "";
      if o.filter.Some? {
        if o.filter.value.Err? {
          return Err(o.filter.value.fault);
        }
        where := " WHERE " + o.filter.value.value;
      }
      query := query + where;
      var limit := "";
      if o.top.Some? && !o.orderBy && !o.count {
        limit := " LIMIT " + IntToString(LimitAsWritten(o.top.value, o.skip));
      } else if o.top.Some? {
        return Err(ServiceFault(TopMessage));
      }
      query := query + limit;
      if o.filter.Some? {
        query := query + " ALLOW FILTERING";
      } else {
        query := query + "";
      }
      query := query + ";";
      return Ok(query);
    }

    /** `readTableWithKeys`: the statement selecting by the present key values, and the values
        bound to it. */
    function ReadWithKeysPlan(table: string, keys: Entry): Result<Plan> {
      match ClusterTable(schema, table)
      case None => Err(NullDereference)
      case Some(meta) =>
        if table !in primaryKeys || table !in tableMetaData then Err(NullDereference)
        else
          var columns := ColumnNames(tableMetaData[table]);
          var values :- BoundAll([], ReadWithKeysParams(columns, primaryKeys[table], keys), meta.columns);
          Ok(Plan(ReadWithKeysCql(table, columns, keys, quote), values))
    }

    method ReadTableWithKeys(table: string, keys: Entry) returns (r: Result<BoundStatement>)
      requires Valid()
      modifies cache
      ensures Valid()
      ensures r.Ok? <==> ReadWithKeysPlan(table, keys).Ok?
      ensures r.Err? ==> r.fault == ReadWithKeysPlan(table, keys).fault && unchanged(cache)
      ensures r.Ok? ==> Issued(r.value, ReadWithKeysPlan(table, keys).value)
    {
      var meta := ClusterTable(schema, table);
      if meta.None? {
        return Err(NullDereference);
      }
      KnownTables(table);
      var pKeys := primaryKeys[table];
      var columns := ColumnNames(tableMetaData[table]);
      var query := CreateReadWithKeysCql(table, columns, keys, quote);
      var values := BindColumns(keys.Names(), c => c in columns && c in pKeys, keys, meta.value.columns, []);
      if values.Err? {
        return Err(values.fault);
      }
      var statement := cache.GetOrPrepare(query);
      return Ok(BoundStatement(statement, values.value));
    }

    /** A prepared statement carries the plan's query and values and is the cache's entry for
        that query. */
    ghost predicate Issued(bound: BoundStatement, plan: Plan)
      reads cache
    {
      && bound.statement.query == plan.query
      && bound.values == plan.values
      && plan.query in cache.entries && cache.entries[plan.query] == bound.statement
    }

    // -------------------------------------------------------------------------------------
    // Writing

    /** `insertEntityToTable` up to execution: the entity with its generated keys, the INSERT
        of its present columns, and their values. */
    function InsertPlan(table: string, entity: Entry, newUuid: string -> string): Result<(Entry, Plan)> {
      match ClusterTable(schema, table)
      case None => Err(NullDereference)
      case Some(meta) =>
        if table !in primaryKeys || table !in tableMetaData then Err(NullDereference)
        else
          var entry :- FilledKeys(primaryKeys[table], tableMetaData[table], entity, newUuid);
          var columns := ColumnNames(tableMetaData[table]);
          var values :- BoundAll([], InsertParams(columns, entry), meta.columns);
          Ok((entry, Plan(InsertCql(table, columns, entry, quote), values)))
    }

    /** `insertEntityToTable`: generate the missing GUID keys, prepare and bind the INSERT, and
        return the entity with its ETag. */
    method InsertEntityToTable(table: string, entity: Entry, newUuid: string -> string, etag: (string, string, Entry) -> string)
      returns (r: Result<Inserted>)
      requires Valid()
      modifies cache
      ensures Valid()
      ensures r.Ok? <==> InsertPlan(table, entity, newUuid).Ok?
      ensures r.Err? ==> r.fault == InsertPlan(table, entity, newUuid).fault && unchanged(cache)
      ensures r.Ok? ==>
        var (entry, plan) := InsertPlan(table, entity, newUuid).value;
        Issued(r.value.statement, plan) && r.value.entity == entry.AddValue("ETag", Some(etag(configID, table, entry)))
    {
      var meta := ClusterTable(schema, table);
      if meta.None? {
        return Err(NullDereference);
      }
      KnownTables(table);
      var filled := FillKeys(primaryKeys[table], tableMetaData[table], entity, newUuid);
      if filled.Err? {
        return Err(filled.fault);
      }
      var entry := filled.value;
      var columns := ColumnNames(tableMetaData[table]);
      var query := CreateInsertCql(table, columns, entry, quote);
      var values := BindColumns(columns, c => c in entry.Names() && entry.GetValue(c).Some?, entry, meta.value.columns, []);
      if values.Err? {
        return Err(values.fault);
      }
      var statement := cache.GetOrPrepare(query);
      return Ok(Inserted(BoundStatement(statement, values.value), entry.AddValue("ETag", Some(etag(configID, table, entry)))));
    }

    /** `updateEntityInTable` up to execution. */
    function UpdatePlan(table: string, newProperties: Entry): Result<Plan> {
      match ClusterTable(schema, table)
      case None => Err(NullDereference)
      case Some(meta) =>
        if table !in primaryKeys || table !in tableMetaData then Err(NullDereference)
        else
          var columns := ColumnNames(tableMetaData[table]);
          var pKeys := primaryKeys[table];
          var values :- BoundAll([], UpdateParams(columns, pKeys, newProperties), meta.columns);
          Ok(Plan(UpdateCql(table, pKeys, newProperties, quote), values))
    }

    method UpdateEntityInTable(table: string, newProperties: Entry) returns (r: Result<BoundStatement>)
      requires Valid()
      modifies cache
      ensures Valid()
      ensures r.Ok? <==> UpdatePlan(table, newProperties).Ok?
      ensures r.Err? ==> r.fault == UpdatePlan(table, newProperties).fault && unchanged(cache)
      ensures r.Ok? ==> Issued(r.value, UpdatePlan(table, newProperties).value)
    {
      var meta := ClusterTable(schema, table);
      if meta.None? {
        return Err(NullDereference);
      }
      KnownTables(table);
      var pKeys := primaryKeys[table];
      var columns := ColumnNames(tableMetaData[table]);
      var query := CreateUpdateCql(table, pKeys, newProperties, quote);
      var names := newProperties.Names();
      var first := BindColumns(names, c => c in columns && c !in pKeys, newProperties, meta.value.columns, []);
      if first.Err? {
        BoundAllChain([], ParamsOf(Filter(names, c => c in columns && c !in pKeys), newProperties),
                      ParamsOf(KeysIn(names, pKeys), newProperties), meta.value.columns);
        return Err(first.fault);
      }
      var values := BindColumns(names, c => c in pKeys, newProperties, meta.value.columns, first.value);
      BoundAllChain([], ParamsOf(Filter(names, c => c in columns && c !in pKeys), newProperties),
                    ParamsOf(KeysIn(names, pKeys), newProperties), meta.value.columns);
      if values.Err? {
        return Err(values.fault);
      }
      var statement := cache.GetOrPrepare(query);
      return Ok(BoundStatement(statement, values.value));
    }

    /** `updateEntityInTableTransactional` up to execution. */
    function UpdateTransactionalPlan(table: string, oldProperties: Entry, newProperties: Entry): Result<Plan> {
      match ClusterTable(schema, table)
      case None => Err(NullDereference)
      case Some(meta) =>
        if table !in primaryKeys || table !in tableMetaData then Err(NullDereference)
        else
          var columns := ColumnNames(tableMetaData[table]);
          var pKeys := primaryKeys[table];
          var values :- BoundAll([], UpdateTransactionalParams(columns, pKeys, oldProperties, newProperties), meta.columns);
          Ok(Plan(UpdateTransactionalCql(table, pKeys, oldProperties, newProperties, quote), values))
    }

    method UpdateEntityInTableTransactional(table: string, oldProperties: Entry, newProperties: Entry)
      returns (r: Result<BoundStatement>)
      requires Valid()
      modifies cache
      ensures Valid()
      ensures r.Ok? <==> UpdateTransactionalPlan(table, oldProperties, newProperties).Ok?
      ensures r.Err? ==> r.fault == UpdateTransactionalPlan(table, oldProperties, newProperties).fault && unchanged(cache)
      ensures r.Ok? ==> Issued(r.value, UpdateTransactionalPlan(table, oldProperties, newProperties).value)
    {
      var meta := ClusterTable(schema, table);
      if meta.None? {
        return Err(NullDereference);
      }
      KnownTables(table);
      var pKeys := primaryKeys[table];
      var columns := ColumnNames(tableMetaData[table]);
      var query := CreateUpdateTransactionalCql(table, pKeys, oldProperties, newProperties, quote);
      var metaColumns := meta.value.columns;
      var setParams := ParamsOf(Filter(newProperties.Names(), c => c in columns && c !in pKeys), newProperties);
      var keyParams := ParamsOf(KeysIn(oldProperties.Names(), pKeys), oldProperties);
      var ifParams := ParamsOf(NonKeys(oldProperties.Names(), pKeys), oldProperties);
      BoundAllChain([], setParams + keyParams, ifParams, metaColumns);
      BoundAllChain([], setParams, keyParams, metaColumns);
      var first := BindColumns(newProperties.Names(), c => c in columns && c !in pKeys, newProperties, metaColumns, []);
      if first.Err? {
        return Err(first.fault);
      }
      var second := BindColumns(oldProperties.Names(), c => c in pKeys, oldProperties, metaColumns, first.value);
      if second.Err? {
        return Err(second.fault);
      }
      var values := BindColumns(oldProperties.Names(), c => c !in pKeys, oldProperties, metaColumns, second.value);
      if values.Err? {
        return Err(values.fault);
      }
      var statement := cache.GetOrPrepare(query);
      return Ok(BoundStatement(statement, values.value));
    }

    /** The DELETE by primary key, with the entry's key values in the entry's order. */
    function DeletePlan(table: string, entity: Entry): Result<Plan> {
      match ClusterTable(schema, table)
      case None => Err(NullDereference)
      case Some(meta) =>
        if table !in primaryKeys then Err(NullDereference)
        else
          var pKeys := primaryKeys[table];
          var values :- BoundAll([], DeleteParams(pKeys, entity), meta.columns);
          Ok(Plan(DeleteCql(table, pKeys, quote), values))
    }

    /** The conditional DELETE: keyed by the entry's key values, conditioned on its others. */
    function DeleteTransactionalPlan(table: string, entity: Entry): Result<Plan> {
      match ClusterTable(schema, table)
      case None => Err(NullDereference)
      case Some(meta) =>
        if table !in primaryKeys then Err(NullDereference)
        else
          var pKeys := primaryKeys[table];
          var values :- BoundAll([], DeleteTransactionalParams(pKeys, entity), meta.columns);
          Ok(Plan(DeleteTransactionalCql(table, pKeys, entity, quote), values))
    }

    /** `deleteEntityInTable`: the conditional delete inside a transaction, the plain one
        outside. */
    method DeleteEntityInTable(table: string, entity: Entry) returns (r: Result<BoundStatement>)
      requires Valid()
      modifies cache
      ensures Valid()
      ensures var plan := if transactionAvailable then DeleteTransactionalPlan(table, entity) else DeletePlan(table, entity);
        && (r.Ok? <==> plan.Ok?)
        && (r.Err? ==> r.fault == plan.fault && unchanged(cache))
        && (r.Ok? ==> Issued(r.value, plan.value))
    {
      if transactionAvailable {
        r := DeleteEntityInTableTransactional(table, entity);
      } else {
        r := DeleteEntityTableNonTransactional(table, entity);
      }
    }

    method DeleteEntityTableNonTransactional(table: string, entity: Entry) returns (r: Result<BoundStatement>)
      requires Valid()
      modifies cache
      ensures Valid()
      ensures r.Ok? <==> DeletePlan(table, entity).Ok?
      ensures r.Err? ==> r.fault == DeletePlan(table, entity).fault && unchanged(cache)
      ensures r.Ok? ==> Issued(r.value, DeletePlan(table, entity).value)
    {
      var meta := ClusterTable(schema, table);
      if meta.None? {
        return Err(NullDereference);
      }
      KnownTables(table);
      var pKeys := primaryKeys[table];
      var query := CreateDeleteCql(table, pKeys, quote);
      var values := BindColumns(entity.Names(), c => c in pKeys, entity, meta.value.columns, []);
      if values.Err? {
        return Err(values.fault);
      }
      var statement := cache.GetOrPrepare(query);
      return Ok(BoundStatement(statement, values.value));
    }

    method DeleteEntityInTableTransactional(table: string, entity: Entry) returns (r: Result<BoundStatement>)
      requires Valid()
      modifies cache
      ensures Valid()
      ensures r.Ok? <==> DeleteTransactionalPlan(table, entity).Ok?
      ensures r.Err? ==> r.fault == DeleteTransactionalPlan(table, entity).fault && unchanged(cache)
      ensures r.Ok? ==> Issued(r.value, DeleteTransactionalPlan(table, entity).value)
    {
      var meta := ClusterTable(schema, table);
      if meta.None? {
        return Err(NullDereference);
      }
      KnownTables(table);
      var pKeys := primaryKeys[table];
      var query := CreateDeleteTransactionalCql(table, pKeys, entity, quote);
      var names := entity.Names();
      ParamsOfAppend(KeysIn(names, pKeys), NonKeys(names, pKeys), entity);
      BoundAllChain([], ParamsOf(KeysIn(names, pKeys), entity), ParamsOf(NonKeys(names, pKeys), entity), meta.value.columns);
      var first := BindColumns(names, c => c in pKeys, entity, meta.value.columns, []);
      if first.Err? {
        return Err(first.fault);
      }
      var values := BindColumns(names, c => c !in pKeys, entity, meta.value.columns, first.value);
      if values.Err? {
        return Err(values.fault);
      }
      var statement := cache.GetOrPrepare(query);
      return Ok(BoundStatement(statement, values.value));
    }

    // -------------------------------------------------------------------------------------
    // What the plans bind

    /** A statement prepared for a table the keyspace does not hold is never reached: every
        operation dereferences the table's missing metadata first. */
    lemma UnknownTableFaults(table: string, entity: Entry, other: Entry, newUuid: string -> string)
      requires Valid() && table !in tableList
      ensures ReadWithKeysPlan(table, entity) == Err(NullDereference)
      ensures InsertPlan(table, entity, newUuid) == Err(NullDereference)
      ensures UpdatePlan(table, entity) == Err(NullDereference)
      ensures UpdateTransactionalPlan(table, other, entity) == Err(NullDereference)
      ensures DeletePlan(table, entity) == Err(NullDereference)
      ensures DeleteTransactionalPlan(table, entity) == Err(NullDereference)
    {
    }

    /** The insert keeps the entity's values, except that each GUID key it left null holds a
        generated UUID; the ETag is added on top. */
    lemma InsertedEntity(table: string, entity: Entry, newUuid: string -> string)
      requires Valid()
      ensures InsertPlan(table, entity, newUuid).Ok? ==> forall n ::
        InsertPlan(table, entity, newUuid).value.0.GetValue(n)
        == if entity.GetValue(n).None? && GuidKey(primaryKeys[table], tableMetaData[table], n)
           then Some(newUuid(n)) else entity.GetValue(n)
    {
      if InsertPlan(table, entity, newUuid).Ok? {
        KnownTables(table);
        var filled := FilledKeys(primaryKeys[table], tableMetaData[table], entity, newUuid);
        assert filled.Ok? && InsertPlan(table, entity, newUuid).value.0 == filled.value;
        FilledKeysValues(primaryKeys[table], tableMetaData[table], entity, newUuid);
      }
    }

    /** An insert fails on its keys exactly when a primary key is not a column of the table. */
    lemma InsertKeysFault(table: string, entity: Entry, newUuid: string -> string)
      requires Valid() && table in tableList
      ensures (exists k :: 0 <= k < |primaryKeys[table]| && primaryKeys[table][k] !in ColumnNames(tableMetaData[table]))
              ==> InsertPlan(table, entity, newUuid) == Err(NullDereference)
    {
      KnownTables(table);
      FilledKeysValues(primaryKeys[table], tableMetaData[table], entity, newUuid);
    }

    /** The insert binds exactly as many values as its statement has placeholders. */
    lemma InsertPlanPlaceholders(table: string, entity: Entry, newUuid: string -> string)
      requires Valid() && KeepsPlain(quote) && PlainTable(table)
      ensures InsertPlan(table, entity, newUuid).Ok? ==>
        CountChar(InsertPlan(table, entity, newUuid).value.1.query, '?') == |InsertPlan(table, entity, newUuid).value.1.values|
    {
      if InsertPlan(table, entity, newUuid).Ok? {
        KnownTables(table);
        var meta := ClusterTable(schema, table).value;
        var entry := FilledKeys(primaryKeys[table], tableMetaData[table], entity, newUuid).value;
        var columns := ColumnNames(tableMetaData[table]);
        InsertPlaceholders(table, columns, entry, quote);
        InsertAligned(columns, entry);
        BoundLength(InsertParams(columns, entry), meta.columns);
      }
    }

    /** The update binds as many values as its statement has placeholders when every non-key
        name of the new properties is a column and the new properties list the keys in key
        order. */
    lemma UpdatePlanPlaceholders(table: string, newProperties: Entry)
      requires Valid() && KeepsPlain(quote) && PlainTable(table) && PlainNames(newProperties.Names())
      requires table in tableMetaData ==> forall c :: c in newProperties.Names() && c !in primaryKeys[table] ==> c in ColumnNames(tableMetaData[table])
      requires table in primaryKeys ==> KeysIn(newProperties.Names(), primaryKeys[table]) == primaryKeys[table]
      ensures UpdatePlan(table, newProperties).Ok? ==>
        CountChar(UpdatePlan(table, newProperties).value.query, '?') == |UpdatePlan(table, newProperties).value.values|
    {
      if UpdatePlan(table, newProperties).Ok? {
        KnownTables(table);
        var meta := ClusterTable(schema, table).value;
        var pKeys := primaryKeys[table];
        var columns := ColumnNames(tableMetaData[table]);
        UpdatePlaceholders(table, pKeys, newProperties, quote);
        UpdateAligned(columns, pKeys, newProperties);
        BoundLength(UpdateParams(columns, pKeys, newProperties), meta.columns);
      }
    }

    /** The conditional update binds as many values as its statement has placeholders when every
        new non-key name is a column and the old properties list the keys in key order. */
    lemma UpdateTransactionalPlanPlaceholders(table: string, oldProperties: Entry, newProperties: Entry)
      requires Valid() && KeepsPlain(quote) && PlainTable(table)
      requires PlainNames(newProperties.Names()) && PlainNames(oldProperties.Names())
      requires table in tableMetaData ==> forall c :: c in newProperties.Names() && c !in primaryKeys[table] ==> c in ColumnNames(tableMetaData[table])
      requires table in primaryKeys ==> KeysIn(oldProperties.Names(), primaryKeys[table]) == primaryKeys[table]
      ensures UpdateTransactionalPlan(table, oldProperties, newProperties).Ok? ==>
        CountChar(UpdateTransactionalPlan(table, oldProperties, newProperties).value.query, '?')
        == |UpdateTransactionalPlan(table, oldProperties, newProperties).value.values|
    {
      if UpdateTransactionalPlan(table, oldProperties, newProperties).Ok? {
        KnownTables(table);
        var meta := ClusterTable(schema, table).value;
        var pKeys := primaryKeys[table];
        var columns := ColumnNames(tableMetaData[table]);
        UpdateTransactionalPlaceholders(table, pKeys, oldProperties, newProperties, quote);
        UpdateTransactionalAligned(columns, pKeys, oldProperties, newProperties);
        BoundLength(UpdateTransactionalParams(columns, pKeys, oldProperties, newProperties), meta.columns);
      }
    }

    /** The keyed read binds as many values as its statement has placeholders when the keys
        entry holds exactly its non-null key columns, in column order. */
    lemma ReadWithKeysPlanPlaceholders(table: string, keys: Entry)
      requires Valid() && KeepsPlain(quote) && PlainTable(table)
      requires table in tableMetaData ==> Present(ColumnNames(tableMetaData[table]), keys) == keys.Names()
      requires table in primaryKeys ==> forall c :: c in keys.Names() ==> c in primaryKeys[table]
      ensures ReadWithKeysPlan(table, keys).Ok? ==>
        CountChar(ReadWithKeysPlan(table, keys).value.query, '?') == |ReadWithKeysPlan(table, keys).value.values|
    {
      if ReadWithKeysPlan(table, keys).Ok? {
        KnownTables(table);
        var meta := ClusterTable(schema, table).value;
        var columns := ColumnNames(tableMetaData[table]);
        ReadWithKeysPlaceholders(table, columns, keys, quote);
        ReadWithKeysAligned(columns, primaryKeys[table], keys);
        BoundLength(ReadWithKeysParams(columns, primaryKeys[table], keys), meta.columns);
      }
    }

    /** The delete binds as many values as its statement has placeholders when the entry lists
        the keys in key order. */
    lemma DeletePlanPlaceholders(table: string, entity: Entry)
      requires Valid() && KeepsPlain(quote) && PlainTable(table)
      requires table in primaryKeys ==> KeysIn(entity.Names(), primaryKeys[table]) == primaryKeys[table]
      ensures DeletePlan(table, entity).Ok? ==>
        CountChar(DeletePlan(table, entity).value.query, '?') == |DeletePlan(table, entity).value.values|
    {
      if DeletePlan(table, entity).Ok? {
        KnownTables(table);
        var meta := ClusterTable(schema, table).value;
        var pKeys := primaryKeys[table];
        DeletePlaceholders(table, pKeys, quote);
        DeleteAligned(table, pKeys, entity, quote);
        BoundLength(DeleteParams(pKeys, entity), meta.columns);
      }
    }

    /** Whatever the entry, the conditional delete binds as many values as its statement has
        placeholders. */
    lemma DeleteTransactionalPlanPlaceholders(table: string, entity: Entry)
      requires Valid() && KeepsPlain(quote) && PlainTable(table) && PlainNames(entity.Names())
      ensures DeleteTransactionalPlan(table, entity).Ok? ==>
        CountChar(DeleteTransactionalPlan(table, entity).value.query, '?') == |DeleteTransactionalPlan(table, entity).value.values|
    {
      if DeleteTransactionalPlan(table, entity).Ok? {
        KnownTables(table);
        var meta := ClusterTable(schema, table).value;
        var pKeys := primaryKeys[table];
        DeleteTransactionalPlaceholders(table, pKeys, entity, quote);
        DeleteTransactionalAligned(table, pKeys, entity, quote);
        KeysPartition(entity.Names(), pKeys);
        BoundLength(DeleteTransactionalParams(pKeys, entity), meta.columns);
      }
    }

    /** A table whose name, column names and key names hold no '?'. */
    ghost predicate PlainTable(table: string) {
      ClusterTable(schema, table).Some? ==>
        var meta := ClusterTable(schema, table).value;
        '?' !in table && PlainNames(MetaNames(meta.columns)) && PlainNames(meta.primaryKey)
    }

    // -------------------------------------------------------------------------------------
    // Transactions and references

    /** `openTransaction`: later deletes are conditional. */
    method OpenTransaction()
      modifies this
      ensures transactionAvailable
    {
      transactionAvailable := true;
    }

    /** `commitTransaction`: the flag is cleared; nothing is committed. */
    method CommitTransaction()
      modifies this
      ensures !transactionAvailable
    {
      transactionAvailable := false;
    }

    /** `rollbackTransaction`: the flag is cleared; nothing is rolled back. */
    method RollbackTransaction()
      modifies this
      ensures !transactionAvailable
    {
      transactionAvailable := false;
    }
  }

  /** `updateReference` and `deleteReference`: references are refused whatever the arguments. */
  function ReferenceChange(rootTable: string, rootKeys: Entry, navigationTable: string, navigationKeys: Entry): (r: Result<()>)
    ensures r.Err? && r.fault.ServiceFault?
  {
    Err(ServiceFault(ReferencesMessage))
  }
}
