/** Links between entities of two tables joined by a foreign key (`updateReference`,
    `deleteReference`): which table exports the key, the SELECT that reads the exported key
    values, and the UPDATE that writes them, or nulls, into the importing table's foreign-key
    columns. The handler's maps are passed in: `types` for `rdbmsDataTypes` (table to column
    types), `primaryKeys` for the key lists, `navigation` for `navigationProperties`
    (exporting table to its navigation table). */
module RdbmsReferences {
  import opened Common
  import opened Text
  import opened Entries
  import opened Clauses
  import opened RdbmsSql
  import opened RdbmsCatalog

  /** A statement to execute: its text and its bindings in placeholder order. */
  datatype Statement = Statement(sql: string, bindings: seq<Binding>)

  /** `rdbmsDataTypes.get(table)`, with an absent table as an empty column map: either way the
      first column looked up in it ends in a null dereference. */
  function TableTypes(types: map<string, seq<ColumnType>>, table: string): (r: seq<ColumnType>)
    ensures table !in types ==> ColumnsOf(r) == []
    ensures table in types ==> r == types[table]
  {
    if table in types then types[table] else []
  }

  // ---------------------------------------------------------------------------------------
  // Which side exports

  /** `table`'s navigation table lists `other`: `table` exports a key that `other` imports. */
  predicate Exports(navigation: map<string, seq<NavigationEdge>>, table: string, other: string) {
    table in navigation && other in TablesOf(navigation[table])
  }

  /** The two tables of a reference, sorted into exporting and importing side, each with the
      key entry the request gave for it, and the key pairs that link them. */
  datatype Sides = Sides(
    exported: string, imported: string,
    exportedKeys: Entry, importedKeys: Entry,
    keys: seq<NavigationKey>)

  /** The side selection both reference operations open with: the root table is the exporting
      side when its navigation table lists the other table; otherwise the other table is
      taken to be. Looking up the key pairs of a pair of tables that are not linked
      dereferences null. */
  function ReferenceSides(navigation: map<string, seq<NavigationEdge>>, rootTable: string, rootKeys: Entry,
                          navigationTable: string, navigationKeys: Entry): (r: Result<Sides>)
    ensures r.Ok? <==> Exports(navigation, rootTable, navigationTable) || Exports(navigation, navigationTable, rootTable)
    ensures Exports(navigation, rootTable, navigationTable) ==>
      r.Ok? && r.value.exported == rootTable && r.value.imported == navigationTable
      && r.value.exportedKeys == rootKeys && r.value.importedKeys == navigationKeys
    ensures !Exports(navigation, rootTable, navigationTable) && r.Ok? ==>
      r.value.exported == navigationTable && r.value.imported == rootTable
      && r.value.exportedKeys == navigationKeys && r.value.importedKeys == rootKeys
    ensures r.Ok? ==> Some(r.value.keys) == NavigationKeysOf(navigation[r.value.exported], r.value.imported)
  {
    var rootExports := Exports(navigation, rootTable, navigationTable);
    var sides := if rootExports then Sides(rootTable, navigationTable, rootKeys, navigationKeys, [])
                 else Sides(navigationTable, rootTable, navigationKeys, rootKeys, []);
    if sides.exported !in navigation then Err(NullDereference)
    else match NavigationKeysOf(navigation[sides.exported], sides.imported)
      case None => Err(NullDereference)
      case Some(keys) => Ok(sides.(keys := keys))
  }

  /** When only one of two tables exports to the other, it does not matter which of them the
      request names as root: both requests find the same sides. */
  lemma ReferenceSidesSymmetric(navigation: map<string, seq<NavigationEdge>>, a: string, aKeys: Entry, b: string, bKeys: Entry)
    requires !(Exports(navigation, a, b) && Exports(navigation, b, a))
    ensures ReferenceSides(navigation, a, aKeys, b, bKeys) == ReferenceSides(navigation, b, bKeys, a, aKeys)
  {
  }

  // ---------------------------------------------------------------------------------------
  // Statements

  /** `foreignKey = ?` for one key pair. */
  function ForeignKeyCondition(key: NavigationKey): string {
    Condition(key.foreignKey)
  }

  function PrimaryKeyName(key: NavigationKey): string {
    key.primaryKey
  }

  function ForeignKeyName(key: NavigationKey): string {
    key.foreignKey
  }

  /** `createAddReferenceSQL`: SET every foreign-key column, comma-separated, WHERE every
      primary key of the importing table. */
  function AddReferenceSql(importedTable: string, pKeys: seq<string>, keys: seq<NavigationKey>): string {
    "UPDATE " + importedTable + " SET " + Join(MapSeq(keys, ForeignKeyCondition), ",")
    + " WHERE " + Join(MapSeq(pKeys, Condition), " AND ")
  }

  method CreateAddReferenceSql(importedTable: string, pKeys: seq<string>, keys: seq<NavigationKey>) returns (sql: string)
    ensures sql == AddReferenceSql(importedTable, pKeys, keys)
  {
    sql := AppendEach("UPDATE " + importedTable + " SET ", keys, k => true, ForeignKeyCondition, ",");
    sql := AppendEach(sql + " WHERE ", pKeys, c => true, Condition, " AND ");
    SelectIsMapOfFilter(keys, k => true, ForeignKeyCondition);
    SelectIsMapOfFilter(pKeys, c => true, Condition);
    FilterAll(keys);
    FilterAll(pKeys);
  }

  /** The UPDATE holds a placeholder per key pair and one per primary key. */
  lemma AddReferencePlaceholders(importedTable: string, pKeys: seq<string>, keys: seq<NavigationKey>)
    requires '?' !in importedTable && PlainNames(pKeys) && PlainNames(MapSeq(keys, ForeignKeyName))
    ensures CountChar(AddReferenceSql(importedTable, pKeys, keys), '?') == |keys| + |pKeys|
  {
    ForeignKeyConditionsCount(keys);
    ConditionsCount(pKeys, " AND ");
    UpdateShapeCount(importedTable, Join(MapSeq(keys, ForeignKeyCondition), ","), Join(MapSeq(pKeys, Condition), " AND "));
  }

  lemma ForeignKeyConditionsCount(keys: seq<NavigationKey>)
    requires PlainNames(MapSeq(keys, ForeignKeyName))
    ensures CountChar(Join(MapSeq(keys, ForeignKeyCondition), ","), '?') == |keys|
  {
    var items := MapSeq(keys, ForeignKeyCondition);
    forall k | 0 <= k < |items|
      ensures CountChar(items[k], '?') == 1
    {
      assert '?' !in MapSeq(keys, ForeignKeyName)[k];
      ConditionCount(keys[k].foreignKey);
    }
    JoinOnesCount(items, ",", '?');
  }

  /** The exporting table's columns, in column-map order, for which the key entry holds a
      non-null value: the WHERE list of the key SELECT. */
  function SelectReferenceColumns(types: seq<ColumnType>, keys: Entry): seq<string> {
    Filter(ColumnsOf(types), c => keys.GetValue(c).Some?)
  }

  /** `createSelectReferenceKeyFromExportedTable`: the primary-key columns of the key pairs,
      separated by " , ", FROM the exporting table, WHERE its keyed columns. */
  function SelectReferenceSql(table: string, types: seq<ColumnType>, keys: Entry, columns: seq<NavigationKey>): string {
    "SELECT " + Join(MapSeq(columns, PrimaryKeyName), " , ") + " FROM " + table + " WHERE "
    + Join(MapSeq(SelectReferenceColumns(types, keys), Condition), " AND ")
  }

  method CreateSelectReferenceSql(table: string, types: seq<ColumnType>, keys: Entry, columns: seq<NavigationKey>)
    returns (sql: string)
    ensures sql == SelectReferenceSql(table, types, keys, columns)
  {
    sql := AppendEach("SELECT ", columns, k => true, PrimaryKeyName, " , ");
    sql := AppendEach(sql + " FROM " + table + " WHERE ", ColumnsOf(types), c => keys.GetValue(c).Some?, Condition, " AND ");
    SelectIsMapOfFilter(columns, k => true, PrimaryKeyName);
    SelectIsMapOfFilter(ColumnsOf(types), c => keys.GetValue(c).Some?, Condition);
    FilterAll(columns);
  }

  /** The key SELECT holds one placeholder per keyed column of the table. */
  lemma SelectReferencePlaceholders(table: string, types: seq<ColumnType>, keys: Entry, columns: seq<NavigationKey>)
    requires '?' !in table && PlainNames(ColumnsOf(types)) && PlainNames(MapSeq(columns, PrimaryKeyName))
    ensures CountChar(SelectReferenceSql(table, types, keys, columns), '?') == |SelectReferenceColumns(types, keys)|
  {
    var head := "SELECT " + Join(MapSeq(columns, PrimaryKeyName), " , ") + " FROM " + table + " WHERE ";
    var conditions := Join(MapSeq(SelectReferenceColumns(types, keys), Condition), " AND ");
    FilterPlain(ColumnsOf(types), c => keys.GetValue(c).Some?);
    ConditionsCount(SelectReferenceColumns(types, keys), " AND ");
    ZeroInAll(MapSeq(columns, PrimaryKeyName));
    CountCharJoin(MapSeq(columns, PrimaryKeyName), " , ", '?');
    CountAbsent(" , ", '?');
    assert CountChar(head, '?') == 0 by {
      CountAbsent("SELECT ", '?');
      CountAbsent(" FROM ", '?');
      CountAbsent(" WHERE ", '?');
      CountAbsent(table, '?');
      var list := Join(MapSeq(columns, PrimaryKeyName), " , ");
      CountCharAppend("SELECT ", list, '?');
      CountCharAppend("SELECT " + list, " FROM ", '?');
      CountCharAppend("SELECT " + list + " FROM ", table, '?');
      CountCharAppend("SELECT " + list + " FROM " + table, " WHERE ", '?');
    }
    CountCharAppend(head, conditions, '?');
  }

  /** The bindings of the key SELECT: every name of the key entry, null or not, with its type
      in the exporting table. */
  method BindSelectReference(types: seq<ColumnType>, keys: Entry) returns (r: Result<seq<Binding>>)
    ensures r == Bound(1, keys.Names(), keys, types)
  {
    r := BindEach(1, keys.Names(), c => true, keys, types);
    FilterAll(keys.Names());
  }

  /** The key SELECT's bindings line up with its placeholders exactly when the key entry lists
      the table's keyed columns in column-map order, with no null value. */
  lemma SelectReferenceAligned(types: seq<ColumnType>, keys: Entry)
    requires Bound(1, keys.Names(), keys, types).Ok?
    ensures BoundColumns(Bound(1, keys.Names(), keys, types).value) == SelectReferenceColumns(types, keys)
            <==> keys.Names() == SelectReferenceColumns(types, keys)
  {
    BoundColumnsOfPositioned(1, keys.Names(), keys, types);
  }

  // ---------------------------------------------------------------------------------------
  // Reading the exported key values

  /** `getForeignKeysValues` as written: the rows are read by a `while (resultSet.next())`
      nested inside the loop over the key pairs, so the first pair's column takes the value of
      every row in turn and the cursor is exhausted for all later pairs. */
  method ForeignKeyValuesAsWritten(columns: seq<NavigationKey>, rows: seq<Entry>) returns (values: Entry)
    ensures values == ForeignKeyValuesOfFirst(columns, rows)
  {
    values := Empty;
    var cursor := 0;
    var i := 0;
    while i < |columns|
      invariant 0 <= i <= |columns|
      invariant 0 <= cursor <= |rows|
      invariant i == 0 ==> cursor == 0 && values == Empty
      invariant i > 0 ==> cursor == |rows| && values == ForeignKeyValuesOfFirst(columns, rows)
    {
      var columnName := columns[i].primaryKey;
      while cursor < |rows|
        invariant 0 <= cursor <= |rows|
        invariant i == 0 ==> values == LastValueOf(columnName, rows[..cursor])
        invariant i > 0 ==> cursor == |rows| && values == ForeignKeyValuesOfFirst(columns, rows)
      {
        assert rows[..cursor + 1][..cursor] == rows[..cursor];
        values := values.AddValue(columnName, rows[cursor].GetValue(columnName));
        cursor := cursor + 1;
      }
      assert rows[..cursor] == rows;
      i := i + 1;
    }
  }

  /** An entry holding `column` with its value in the last of `rows`, or no field when there
      is no row. */
  function LastValueOf(column: string, rows: seq<Entry>): (r: Entry)
    ensures |rows| == 0 ==> r == Empty
    ensures |rows| > 0 ==> r.Names() == [column] && r.GetValue(column) == rows[|rows| - 1].GetValue(column)
  {
    if |rows| == 0 then Empty
    else
      var before := LastValueOf(column, rows[..|rows| - 1]);
      var r := before.AddValue(column, rows[|rows| - 1].GetValue(column));
      assert r.Names() == [column] by {
        if |rows| == 1 {
          assert before.Names() == [];
        }
      }
      r
  }

  /** What `getForeignKeysValues` returns as written: a value for the first key pair only. */
  function ForeignKeyValuesOfFirst(columns: seq<NavigationKey>, rows: seq<Entry>): Entry {
    if |columns| == 0 then Empty else LastValueOf(columns[0].primaryKey, rows)
  }

  /** A composite key loses all but its first column: two key pairs and one row give a single
      value. */
  lemma CompositeKeyLosesColumns()
    ensures ForeignKeyValuesOfFirst([NavigationKey("a", "fa"), NavigationKey("b", "fb")],
                                    [Entry([Field("a", Some("1")), Field("b", Some("2"))])]).Names() == ["a"]
  {
  }

  /** The intended reading: every key pair's primary-key column with its value in the row
      read (the last one, should the SELECT match several). */
  function ForeignKeyValues(columns: seq<NavigationKey>, rows: seq<Entry>): (r: Entry)
    ensures |rows| == 0 ==> r == Empty
    ensures |rows| > 0 ==> forall k :: 0 <= k < |columns| ==>
      columns[k].primaryKey in r.Names() && r.GetValue(columns[k].primaryKey) == rows[|rows| - 1].GetValue(columns[k].primaryKey)
    ensures |rows| > 0 ==> forall n :: n in r.Names() <==> n in MapSeq(columns, PrimaryKeyName)
  {
    if |rows| == 0 then Empty
    else
      var r := CopyColumns(MapSeq(columns, PrimaryKeyName), rows[|rows| - 1]);
      assert forall k :: 0 <= k < |columns| ==> columns[k].primaryKey in MapSeq(columns, PrimaryKeyName) by {
        forall k | 0 <= k < |columns| ensures columns[k].primaryKey in MapSeq(columns, PrimaryKeyName) {
          assert MapSeq(columns, PrimaryKeyName)[k] == columns[k].primaryKey;
        }
      }
      r
  }

  /** With one row, the intended reading keeps every column that the written one drops. */
  lemma ForeignKeyValuesKeepsComposite()
    ensures ForeignKeyValues([NavigationKey("a", "fa"), NavigationKey("b", "fb")],
                             [Entry([Field("a", Some("1")), Field("b", Some("2"))])]).GetValue("b") == Some("2")
  {
    var row := Entry([Field("a", Some("1")), Field("b", Some("2"))]);
    assert row.IndexOf("b") == Some(1) by {
      FirstIndex(row, "b", 1);
    }
  }

  // ---------------------------------------------------------------------------------------
  // The UPDATE of the importing table

  /** `modifyReferences`: the UPDATE over the importing table, binding first the values of
      `modifyValues` with their types in `valueTable`, then the importing table's key values.
      An importing table without a key list, or a column without a type, dereferences null. */
  function ModifyReferences(types: map<string, seq<ColumnType>>, primaryKeys: map<string, seq<string>>,
                            keys: seq<NavigationKey>, importedTable: string, valueTable: string,
                            modifyValues: Entry, keyValues: Entry): (r: Result<Statement>)
    ensures r.Ok? <==> (importedTable in primaryKeys
                        && AllTyped(TableTypes(types, valueTable), modifyValues.Names())
                        && AllTyped(TableTypes(types, importedTable), keyValues.Names()))
    ensures r.Ok? ==> r.value.sql == AddReferenceSql(importedTable, primaryKeys[importedTable], keys)
  {
    var valueTypes := TableTypes(types, valueTable);
    var keyTypes := TableTypes(types, importedTable);
    if importedTable !in primaryKeys then Err(NullDereference)
    else if !AllTyped(valueTypes, modifyValues.Names()) || !AllTyped(keyTypes, keyValues.Names()) then Err(NullDereference)
    else
      Ok(Statement(AddReferenceSql(importedTable, primaryKeys[importedTable], keys),
                   Positioned(1, modifyValues.Names(), modifyValues, valueTypes)
                   + Positioned(1 + |modifyValues.Names()|, keyValues.Names(), keyValues, keyTypes)))
  }

  /** A successful UPDATE binds the modified columns with their values, then the key columns,
      one position after the other. */
  lemma ModifyReferencesBindings(types: map<string, seq<ColumnType>>, primaryKeys: map<string, seq<string>>,
                                 keys: seq<NavigationKey>, importedTable: string, valueTable: string,
                                 modifyValues: Entry, keyValues: Entry)
    requires ModifyReferences(types, primaryKeys, keys, importedTable, valueTable, modifyValues, keyValues).Ok?
    ensures var b := ModifyReferences(types, primaryKeys, keys, importedTable, valueTable, modifyValues, keyValues).value.bindings;
      BoundColumns(b) == modifyValues.Names() + keyValues.Names()
      && (forall k :: 0 <= k < |b| ==> b[k].position == 1 + k)
      && (forall k :: 0 <= k < |modifyValues.Names()| ==> b[k].value == modifyValues.GetValue(modifyValues.Names()[k]))
  {
    var valueTypes := TableTypes(types, valueTable);
    var keyTypes := TableTypes(types, importedTable);
    var first := Positioned(1, modifyValues.Names(), modifyValues, valueTypes);
    var second := Positioned(1 + |modifyValues.Names()|, keyValues.Names(), keyValues, keyTypes);
    assert ModifyReferences(types, primaryKeys, keys, importedTable, valueTable, modifyValues, keyValues).value.bindings
           == first + second;
    PositionedConcat(1, modifyValues.Names(), modifyValues, valueTypes, keyValues.Names(), keyValues, keyTypes);
  }

  /** The two running-index loops of `modifyReferences`. */
  method BindModifyReferences(types: map<string, seq<ColumnType>>, primaryKeys: map<string, seq<string>>,
                              keys: seq<NavigationKey>, importedTable: string, valueTable: string,
                              modifyValues: Entry, keyValues: Entry) returns (r: Result<Statement>)
    ensures r == ModifyReferences(types, primaryKeys, keys, importedTable, valueTable, modifyValues, keyValues)
  {
    if importedTable !in primaryKeys {
      return Err(NullDereference);
    }
    var sql := CreateAddReferenceSql(importedTable, primaryKeys[importedTable], keys);
    var values := BindEach(1, modifyValues.Names(), c => true, modifyValues, TableTypes(types, valueTable));
    FilterAll(modifyValues.Names());
    if values.Err? {
      return Err(values.fault);
    }
    var keyBindings := BindEach(1 + |modifyValues.Names()|, keyValues.Names(), c => true, keyValues, TableTypes(types, importedTable));
    FilterAll(keyValues.Names());
    if keyBindings.Err? {
      return Err(keyBindings.fault);
    }
    r := Ok(Statement(sql, values.value + keyBindings.value));
  }

  /** `updateReference`: the key SELECT on the exporting table, then, from the rows it
      returned, the UPDATE that copies the exported key values into the importing table. */
  datatype ReferenceUpdate = ReferenceUpdate(select: Statement, update: Statement)

  /** Reading a returned row's value of a key column needs that column's type in the exporting
      table. */
  predicate ValuesTyped(types: seq<ColumnType>, columns: seq<string>, rows: seq<Entry>) {
    |rows| == 0 || AllTyped(types, columns)
  }

  /** `updateReference` as written: the key values are read by `getForeignKeysValues` as it is
      written, so the UPDATE sets at most the first key pair's column. Only that column's type
      is looked up, and only when a row came back. */
  function UpdateReference(navigation: map<string, seq<NavigationEdge>>, types: map<string, seq<ColumnType>>,
                           primaryKeys: map<string, seq<string>>, rootTable: string, rootKeys: Entry,
                           navigationTable: string, navigationKeys: Entry, rows: seq<Entry>): (r: Result<ReferenceUpdate>)
    ensures r.Ok? <==>
      ReferenceSides(navigation, rootTable, rootKeys, navigationTable, navigationKeys).Ok?
      && var sides := ReferenceSides(navigation, rootTable, rootKeys, navigationTable, navigationKeys).value;
         sides.exported in types && AllTyped(types[sides.exported], sides.exportedKeys.Names())
         && ValuesTyped(types[sides.exported], MapSeq(sides.keys[..if |sides.keys| == 0 then 0 else 1], PrimaryKeyName), rows)
         && ModifyReferences(types, primaryKeys, sides.keys, sides.imported, sides.exported,
                             ForeignKeyValuesOfFirst(sides.keys, rows), sides.importedKeys).Ok?
    ensures r.Ok? ==>
      var sides := ReferenceSides(navigation, rootTable, rootKeys, navigationTable, navigationKeys).value;
      r.value.select == Statement(SelectReferenceSql(sides.exported, types[sides.exported], sides.exportedKeys, sides.keys),
                                  Positioned(1, sides.exportedKeys.Names(), sides.exportedKeys, types[sides.exported]))
      && r.value.update == ModifyReferences(types, primaryKeys, sides.keys, sides.imported, sides.exported,
                                            ForeignKeyValuesOfFirst(sides.keys, rows), sides.importedKeys).value
      && r.value.update.sql == AddReferenceSql(sides.imported, primaryKeys[sides.imported], sides.keys)
      && BoundColumns(r.value.update.bindings)
         == (if |sides.keys| > 0 && |rows| > 0 then [sides.keys[0].primaryKey] else []) + sides.importedKeys.Names()
  {
    var sides :- ReferenceSides(navigation, rootTable, rootKeys, navigationTable, navigationKeys);
    if sides.exported !in types then Err(NullDereference)
    else
      var sql := SelectReferenceSql(sides.exported, types[sides.exported], sides.exportedKeys, sides.keys);
      var keyBindings :- Bound(1, sides.exportedKeys.Names(), sides.exportedKeys, types[sides.exported]);
      var first := MapSeq(sides.keys[..if |sides.keys| == 0 then 0 else 1], PrimaryKeyName);
      if !ValuesTyped(types[sides.exported], first, rows) then Err(NullDereference)
      else
        var values := ForeignKeyValuesOfFirst(sides.keys, rows);
        var update :- ModifyReferences(types, primaryKeys, sides.keys, sides.imported, sides.exported, values, sides.importedKeys);
        ModifyReferencesBindings(types, primaryKeys, sides.keys, sides.imported, sides.exported, values, sides.importedKeys);
        Ok(ReferenceUpdate(Statement(sql, keyBindings), update))
  }

  /** `updateReference` with the intended reading of the key values: the UPDATE sets every key
      pair's foreign-key column. */
  function UpdateReferenceCorrected(navigation: map<string, seq<NavigationEdge>>, types: map<string, seq<ColumnType>>,
                                    primaryKeys: map<string, seq<string>>, rootTable: string, rootKeys: Entry,
                                    navigationTable: string, navigationKeys: Entry, rows: seq<Entry>): (r: Result<ReferenceUpdate>)
    ensures r.Ok? <==>
      ReferenceSides(navigation, rootTable, rootKeys, navigationTable, navigationKeys).Ok?
      && var sides := ReferenceSides(navigation, rootTable, rootKeys, navigationTable, navigationKeys).value;
         sides.exported in types && AllTyped(types[sides.exported], sides.exportedKeys.Names())
         && ValuesTyped(types[sides.exported], MapSeq(sides.keys, PrimaryKeyName), rows)
         && ModifyReferences(types, primaryKeys, sides.keys, sides.imported, sides.exported,
                             ForeignKeyValues(sides.keys, rows), sides.importedKeys).Ok?
    ensures r.Ok? ==>
      var sides := ReferenceSides(navigation, rootTable, rootKeys, navigationTable, navigationKeys).value;
      r.value.select == Statement(SelectReferenceSql(sides.exported, types[sides.exported], sides.exportedKeys, sides.keys),
                                  Positioned(1, sides.exportedKeys.Names(), sides.exportedKeys, types[sides.exported]))
      && r.value.update == ModifyReferences(types, primaryKeys, sides.keys, sides.imported, sides.exported,
                                            ForeignKeyValues(sides.keys, rows), sides.importedKeys).value
      && (|rows| > 0 ==> forall k :: 0 <= k < |sides.keys| ==> sides.keys[k].primaryKey in BoundColumns(r.value.update.bindings))
  {
    var sides :- ReferenceSides(navigation, rootTable, rootKeys, navigationTable, navigationKeys);
    if sides.exported !in types then Err(NullDereference)
    else
      var sql := SelectReferenceSql(sides.exported, types[sides.exported], sides.exportedKeys, sides.keys);
      var keyBindings :- Bound(1, sides.exportedKeys.Names(), sides.exportedKeys, types[sides.exported]);
      if !ValuesTyped(types[sides.exported], MapSeq(sides.keys, PrimaryKeyName), rows) then Err(NullDereference)
      else
        var values := ForeignKeyValues(sides.keys, rows);
        var update :- ModifyReferences(types, primaryKeys, sides.keys, sides.imported, sides.exported, values, sides.importedKeys);
        ModifyReferencesBindings(types, primaryKeys, sides.keys, sides.imported, sides.exported, values, sides.importedKeys);
        Ok(ReferenceUpdate(Statement(sql, keyBindings), update))
  }

  /** `deleteReference` as written: the nulls go to the foreign-key columns of the importing
      table, but their types are looked up in the exporting table. */
  function DeleteReferenceAsWritten(navigation: map<string, seq<NavigationEdge>>, types: map<string, seq<ColumnType>>,
                                    primaryKeys: map<string, seq<string>>, rootTable: string, rootKeys: Entry,
                                    navigationTable: string, navigationKeys: Entry): (r: Result<Statement>)
    ensures r.Ok? ==>
      var sides := ReferenceSides(navigation, rootTable, rootKeys, navigationTable, navigationKeys);
      sides.Ok? && AllTyped(TableTypes(types, sides.value.exported), MapSeq(sides.value.keys, ForeignKeyName))
    ensures r.Ok? <==>
      var sides := ReferenceSides(navigation, rootTable, rootKeys, navigationTable, navigationKeys);
      sides.Ok? && sides.value.imported in primaryKeys
      && AllTyped(TableTypes(types, sides.value.exported), MapSeq(sides.value.keys, ForeignKeyName))
      && AllTyped(TableTypes(types, sides.value.imported), sides.value.importedKeys.Names())
    ensures r.Ok? ==>
      var sides := ReferenceSides(navigation, rootTable, rootKeys, navigationTable, navigationKeys).value;
      var nulls := AllTo(MapSeq(sides.keys, ForeignKeyName), None);
      r == ModifyReferences(types, primaryKeys, sides.keys, sides.imported, sides.exported, nulls, sides.importedKeys)
  {
    var sides :- ReferenceSides(navigation, rootTable, rootKeys, navigationTable, navigationKeys);
    var nulls := AllTo(MapSeq(sides.keys, ForeignKeyName), None);
    assert AllTyped(TableTypes(types, sides.exported), nulls.Names())
           <==> AllTyped(TableTypes(types, sides.exported), MapSeq(sides.keys, ForeignKeyName));
    ModifyReferences(types, primaryKeys, sides.keys, sides.imported, sides.exported, nulls, sides.importedKeys)
  }

  /** When the as-written unlinking succeeds it binds what the intended one binds: null into
      every foreign-key column of the pair, then the importing table's key values. */
  lemma DeleteReferenceAsWrittenNulls(navigation: map<string, seq<NavigationEdge>>, types: map<string, seq<ColumnType>>,
                                      primaryKeys: map<string, seq<string>>, rootTable: string, rootKeys: Entry,
                                      navigationTable: string, navigationKeys: Entry)
    requires DeleteReferenceAsWritten(navigation, types, primaryKeys, rootTable, rootKeys, navigationTable, navigationKeys).Ok?
    ensures var sides := ReferenceSides(navigation, rootTable, rootKeys, navigationTable, navigationKeys).value;
      var nulls := AllTo(MapSeq(sides.keys, ForeignKeyName), None);
      var b := DeleteReferenceAsWritten(navigation, types, primaryKeys, rootTable, rootKeys, navigationTable, navigationKeys).value.bindings;
      (forall c :: c in nulls.Names() <==> c in MapSeq(sides.keys, ForeignKeyName))
      && BoundColumns(b) == nulls.Names() + sides.importedKeys.Names()
      && (forall k :: 0 <= k < |nulls.Names()| ==> b[k].value == None)
  {
    var sides := ReferenceSides(navigation, rootTable, rootKeys, navigationTable, navigationKeys).value;
    var nulls := AllTo(MapSeq(sides.keys, ForeignKeyName), None);
    ModifyReferencesBindings(types, primaryKeys, sides.keys, sides.imported, sides.exported, nulls, sides.importedKeys);
    forall k | 0 <= k < |nulls.Names()|
      ensures nulls.GetValue(nulls.Names()[k]) == None
    {
      assert nulls.Names()[k] in nulls.Names();
    }
  }

  /** A department exporting `id` to the `dept_id` column of an employee table, as two maps. */
  const DeptNavigation: map<string, seq<NavigationEdge>> := map["dept" := [NavigationEdge("emp", [NavigationKey("id", "dept_id")])]]
  const DeptTypes: map<string, seq<ColumnType>> := map["dept" := [ColumnType("id", 4)], "emp" := [ColumnType("id", 4), ColumnType("dept_id", 4)]]
  const DeptKeys: map<string, seq<string>> := map["dept" := ["id"], "emp" := ["id"]]

  /** Unlinking an employee from its department fails as written: `dept_id` has no type in
      the department table. */
  lemma DeleteReferenceLooksUpWrongTable()
    ensures DeleteReferenceAsWritten(DeptNavigation, DeptTypes, DeptKeys, "dept", Entry([Field("id", Some("1"))]),
                                     "emp", Entry([Field("id", Some("7"))])) == Err(NullDereference)
  {
    var sides := ReferenceSides(DeptNavigation, "dept", Entry([Field("id", Some("1"))]), "emp", Entry([Field("id", Some("7"))]));
    assert Exports(DeptNavigation, "dept", "emp") by {
      assert TablesOf(DeptNavigation["dept"]) == ["emp"];
    }
    assert sides.value.keys == [NavigationKey("id", "dept_id")];
    assert MapSeq(sides.value.keys, ForeignKeyName) == ["dept_id"];
    assert ColumnsOf(DeptTypes["dept"]) == ["id"];
    assert "dept_id" in AllTo(["dept_id"], None).Names();
  }

  /** `deleteReference` as intended: null every foreign-key column of the importing table,
      typed by that table, for the rows with the given key. */
  function DeleteReference(navigation: map<string, seq<NavigationEdge>>, types: map<string, seq<ColumnType>>,
                           primaryKeys: map<string, seq<string>>, rootTable: string, rootKeys: Entry,
                           navigationTable: string, navigationKeys: Entry): (r: Result<Statement>)
    ensures r.Ok? ==> ReferenceSides(navigation, rootTable, rootKeys, navigationTable, navigationKeys).Ok?
    ensures r.Ok? ==>
      var sides := ReferenceSides(navigation, rootTable, rootKeys, navigationTable, navigationKeys).value;
      r == ModifyReferences(types, primaryKeys, sides.keys, sides.imported, sides.imported,
                            AllTo(MapSeq(sides.keys, ForeignKeyName), None), sides.importedKeys)
  {
    var sides :- ReferenceSides(navigation, rootTable, rootKeys, navigationTable, navigationKeys);
    ModifyReferences(types, primaryKeys, sides.keys, sides.imported, sides.imported,
                     AllTo(MapSeq(sides.keys, ForeignKeyName), None), sides.importedKeys)
  }

  /** Unlinking writes null into every foreign-key column of the pair and nothing else, and
      selects the rows by the importing table's key values. */
  lemma DeleteReferenceNullsForeignKeys(navigation: map<string, seq<NavigationEdge>>, types: map<string, seq<ColumnType>>,
                                        primaryKeys: map<string, seq<string>>, rootTable: string, rootKeys: Entry,
                                        navigationTable: string, navigationKeys: Entry)
    requires DeleteReference(navigation, types, primaryKeys, rootTable, rootKeys, navigationTable, navigationKeys).Ok?
    ensures var sides := ReferenceSides(navigation, rootTable, rootKeys, navigationTable, navigationKeys).value;
      var nulls := AllTo(MapSeq(sides.keys, ForeignKeyName), None);
      var b := DeleteReference(navigation, types, primaryKeys, rootTable, rootKeys, navigationTable, navigationKeys).value.bindings;
      (forall c :: c in nulls.Names() <==> c in MapSeq(sides.keys, ForeignKeyName))
      && BoundColumns(b) == nulls.Names() + sides.importedKeys.Names()
      && (forall k :: 0 <= k < |nulls.Names()| ==> b[k].value == None)
  {
    var sides := ReferenceSides(navigation, rootTable, rootKeys, navigationTable, navigationKeys).value;
    var nulls := AllTo(MapSeq(sides.keys, ForeignKeyName), None);
    ModifyReferencesBindings(types, primaryKeys, sides.keys, sides.imported, sides.imported, nulls, sides.importedKeys);
    forall k | 0 <= k < |nulls.Names()|
      ensures nulls.GetValue(nulls.Names()[k]) == None
    {
      assert nulls.Names()[k] in nulls.Names();
    }
  }

  /** The intended unlinking succeeds on the department example: one null for `dept_id`, then
      the employee's key. */
  lemma DeleteReferenceUnlinks()
    ensures DeleteReference(DeptNavigation, DeptTypes, DeptKeys, "dept", Entry([Field("id", Some("1"))]),
                            "emp", Entry([Field("id", Some("7"))])).Ok?
  {
    var sides := ReferenceSides(DeptNavigation, "dept", Entry([Field("id", Some("1"))]), "emp", Entry([Field("id", Some("7"))]));
    assert Exports(DeptNavigation, "dept", "emp") by {
      assert TablesOf(DeptNavigation["dept"]) == ["emp"];
    }
    assert sides.value.keys == [NavigationKey("id", "dept_id")];
    assert MapSeq(sides.value.keys, ForeignKeyName) == ["dept_id"];
    assert ColumnsOf(DeptTypes["emp"]) == ["id", "dept_id"];
    assert Entry([Field("id", Some("7"))]).Names() == ["id"];
  }
}
