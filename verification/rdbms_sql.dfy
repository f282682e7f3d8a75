/** The INSERT, UPDATE, SELECT-by-key and DELETE statements of the relational OData handler:
    their text, with one positional `?` per value, and the bindings the handler makes for them
    with a running index. A table's column-type map and primary-key list are passed in as the
    handler looks them up (`rdbmsDataTypes.get(table)`, `primaryKeys.get(table)`). */
module RdbmsSql {
  import opened Common
  import opened Text
  import opened Entries
  import opened Clauses

  /** The columns a run of bindings binds, in placeholder order. */
  function BoundColumns(bindings: seq<Binding>): (r: seq<string>)
    ensures |r| == |bindings|
    ensures forall k :: 0 <= k < |bindings| ==> r[k] == bindings[k].column
  {
    seq(|bindings|, k requires 0 <= k < |bindings| => bindings[k].column)
  }

  lemma BoundColumnsOfPositioned(start: nat, columns: seq<string>, entry: Entry, types: seq<ColumnType>)
    requires AllTyped(types, columns)
    ensures BoundColumns(Positioned(start, columns, entry, types)) == columns
  {
  }

  /** Two runs of positions, the second starting where the first ends, bind the columns of
      both, one position after the other. */
  lemma PositionedConcat(start: nat, a: seq<string>, ea: Entry, ta: seq<ColumnType>,
                         b: seq<string>, eb: Entry, tb: seq<ColumnType>)
    requires AllTyped(ta, a) && AllTyped(tb, b)
    ensures var r := Positioned(start, a, ea, ta) + Positioned(start + |a|, b, eb, tb);
      BoundColumns(r) == a + b && (forall k :: 0 <= k < |r| ==> r[k].position == start + k)
  {
    var first := Positioned(start, a, ea, ta);
    var second := Positioned(start + |a|, b, eb, tb);
    BoundColumnsOfPositioned(start, a, ea, ta);
    BoundColumnsOfPositioned(start + |a|, b, eb, tb);
    assert BoundColumns(first + second) == BoundColumns(first) + BoundColumns(second);
  }

  // ---------------------------------------------------------------------------------------
  // INSERT

  /** The entry's columns that the table has, in entry order. */
  function InsertColumns(types: seq<ColumnType>, entry: Entry): (r: seq<string>)
    ensures forall c :: c in r <==> c in entry.Names() && c in ColumnsOf(types)
    ensures AllTyped(types, r)
  {
    var r := Filter(entry.Names(), c => c in ColumnsOf(types));
    assert forall c :: c in r <==> c in entry.Names() && c in ColumnsOf(types) by {
      forall c ensures c in r <==> c in entry.Names() && c in ColumnsOf(types) {
        FilterMembership(entry.Names(), c => c in ColumnsOf(types), c);
      }
    }
    r
  }

  /** `createInsertSQL`: the column list, then as many `?` as columns. */
  function InsertSql(table: string, types: seq<ColumnType>, entry: Entry): string {
    var columns := InsertColumns(types, entry);
    "INSERT INTO " + table + " (" + Join(columns, ",") + " ) VALUES ( " + Join(Repeat("?", |columns|), ",") + " ) "
  }

  method CreateInsertSql(table: string, types: seq<ColumnType>, entry: Entry) returns (sql: string)
    ensures sql == InsertSql(table, types, entry)
  {
    sql := AppendEach("INSERT INTO " + table + " (", entry.Names(), c => c in ColumnsOf(types), c => c, ",");
    sql := AppendEach(sql + " ) VALUES ( ", entry.Names(), c => c in ColumnsOf(types), c => "?", ",");
    sql := sql + " ) ";
    var columns := Filter(entry.Names(), c => c in ColumnsOf(types));
    SelectIsMapOfFilter(entry.Names(), c => c in ColumnsOf(types), c => c);
    SelectIsMapOfFilter(entry.Names(), c => c in ColumnsOf(types), c => "?");
    assert MapSeq(columns, c => c) == columns;
    assert MapSeq(columns, c => "?") == Repeat("?", |columns|);
  }

  /** The insert binds the value of every listed column, at the position of its `?`. */
  method BindInsert(types: seq<ColumnType>, entry: Entry) returns (bindings: seq<Binding>)
    ensures bindings == Positioned(1, InsertColumns(types, entry), entry, types)
  {
    var r := BindEach(1, entry.Names(), c => c in ColumnsOf(types), entry, types);
    assert Filter(entry.Names(), c => c in ColumnsOf(types)) == InsertColumns(types, entry);
    bindings := r.value;
  }

  /** The INSERT holds exactly one placeholder per bound value, and the k-th value binds the
      k-th listed column. */
  lemma InsertPlaceholders(table: string, types: seq<ColumnType>, entry: Entry)
    requires '?' !in table && PlainNames(ColumnsOf(types))
    ensures CountChar(InsertSql(table, types, entry), '?') == |InsertColumns(types, entry)|
    ensures BoundColumns(Positioned(1, InsertColumns(types, entry), entry, types)) == InsertColumns(types, entry)
  {
    var columns := InsertColumns(types, entry);
    assert PlainNames(columns) by {
      forall k | 0 <= k < |columns| ensures '?' !in columns[k] {
        assert columns[k] in ColumnsOf(types);
        var j :| 0 <= j < |ColumnsOf(types)| && ColumnsOf(types)[j] == columns[k];
      }
    }
    var head := "INSERT INTO " + table + " (" + Join(columns, ",") + " ) VALUES ( ";
    assert CountChar(Join(columns, ","), '?') == 0 by {
      CountCharJoin(columns, ",", '?');
      ZeroInAll(columns);
      CountAbsent(",", '?');
    }
    PlaceholderCount("?", ",", |columns|);
    CountAbsent(table, '?');
    CountCharAppend("INSERT INTO " + table, " (", '?');
    CountCharAppend("INSERT INTO ", table, '?');
    CountAbsent("INSERT INTO ", '?');
    CountAbsent(" (", '?');
    CountCharAppend("INSERT INTO " + table + " (", Join(columns, ","), '?');
    CountCharAppend("INSERT INTO " + table + " (" + Join(columns, ","), " ) VALUES ( ", '?');
    CountAbsent(" ) VALUES ( ", '?');
    CountCharAppend(head, Join(Repeat("?", |columns|), ","), '?');
    CountCharAppend(head + Join(Repeat("?", |columns|), ","), " ) ", '?');
    CountAbsent(" ) ", '?');
  }

  lemma {:induction false} ZeroInAll(items: seq<string>)
    requires PlainNames(items)
    ensures CountInAll(items, '?') == 0
  {
    if |items| > 0 {
      ZeroInAll(items[..|items| - 1]);
      CountAbsent(items[|items| - 1], '?');
    }
  }

  // ---------------------------------------------------------------------------------------
  // UPDATE

  /** The entry's columns that are not primary keys, in entry order: the SET list. */
  function UpdateSetColumns(pKeys: seq<string>, entry: Entry): (r: seq<string>)
    ensures forall c :: c in r <==> c in entry.Names() && c !in pKeys
  {
    var r := Filter(entry.Names(), c => c !in pKeys);
    assert forall c :: c in r <==> c in entry.Names() && c !in pKeys by {
      forall c ensures c in r <==> c in entry.Names() && c !in pKeys {
        FilterMembership(entry.Names(), c => c !in pKeys, c);
      }
    }
    r
  }

  /** `createUpdateEntitySQL`: SET over the non-key columns, comma-separated, then WHERE over
      every primary key in key order, joined by AND. */
  function UpdateSql(table: string, pKeys: seq<string>, entry: Entry): string {
    "UPDATE " + table + " SET " + Join(MapSeq(UpdateSetColumns(pKeys, entry), Condition), ",")
    + " WHERE " + Join(MapSeq(pKeys, Condition), " AND ")
  }

  method CreateUpdateEntitySql(table: string, pKeys: seq<string>, entry: Entry) returns (sql: string)
    ensures sql == UpdateSql(table, pKeys, entry)
  {
    sql := AppendEach("UPDATE " + table + " SET ", entry.Names(), c => c !in pKeys, Condition, ",");
    sql := AppendEach(sql + " WHERE ", pKeys, c => true, Condition, " AND ");
    SelectIsMapOfFilter(entry.Names(), c => c !in pKeys, Condition);
    SelectIsMapOfFilter(pKeys, c => true, Condition);
    FilterAll(pKeys);
  }

  /** The placeholders of an UPDATE: the SET columns, then the keys. */
  function UpdatePlaceholderColumns(pKeys: seq<string>, entry: Entry): seq<string> {
    UpdateSetColumns(pKeys, entry) + pKeys
  }

  lemma UpdatePlaceholders(table: string, pKeys: seq<string>, entry: Entry)
    requires '?' !in table && PlainNames(entry.Names()) && PlainNames(pKeys)
    ensures CountChar(UpdateSql(table, pKeys, entry), '?') == |UpdatePlaceholderColumns(pKeys, entry)|
  {
    var setColumns := UpdateSetColumns(pKeys, entry);
    FilterPlain(entry.Names(), c => c !in pKeys);
    ConditionsCount(setColumns, ",");
    ConditionsCount(pKeys, " AND ");
    UpdateShapeCount(table, Join(MapSeq(setColumns, Condition), ","), Join(MapSeq(pKeys, Condition), " AND "));
  }

  /** The `?` of an UPDATE text are those of its assignments and of its conditions. */
  lemma UpdateShapeCount(table: string, assignments: string, conditions: string)
    requires '?' !in table
    ensures CountChar("UPDATE " + table + " SET " + assignments + " WHERE " + conditions, '?')
      == CountChar(assignments, '?') + CountChar(conditions, '?')
  {
    var prefix := "UPDATE " + table + " SET ";
    CountCharAppend("UPDATE " + table, " SET ", '?');
    CountCharAppend("UPDATE ", table, '?');
    CountAbsent("UPDATE ", '?');
    CountAbsent(" SET ", '?');
    CountAbsent(table, '?');
    CountCharAppend(prefix, assignments, '?');
    CountCharAppend(prefix + assignments, " WHERE ", '?');
    CountAbsent(" WHERE ", '?');
    CountCharAppend(prefix + assignments + " WHERE ", conditions, '?');
  }

  /** The fault `updateEntityInTable` raises when the table has no primary key. */
  function MissingKeysFault(table: string): Fault {
    ServiceFault("Error occurred while updating the entity to " + table + " table. couldn't find keys in the table.")
  }

  /** The bindings of `updateEntityInTable` (keys taken from the new properties) and of
      `updateEntityInTableTransactional` (keys taken from the old ones): the non-key values of
      the new properties in entry order, then the key values of `keySource` in its own order.
      A table without keys faults as soon as `keySource` has a column. */
  function UpdateBindings(table: string, types: seq<ColumnType>, pKeys: seq<string>, newProperties: Entry, keySource: Entry): Result<seq<Binding>> {
    var setColumns := UpdateSetColumns(pKeys, newProperties);
    if !AllTyped(types, setColumns) then Err(NullDereference)
    else if |pKeys| == 0 && |keySource.Names()| > 0 then Err(MissingKeysFault(table))
    else match Bound(1 + |setColumns|, Filter(keySource.Names(), c => c in pKeys), keySource, types)
      case Err(f) => Err(f)
      case Ok(keys) => Ok(Positioned(1, setColumns, newProperties, types) + keys)
  }

  method BindUpdate(table: string, types: seq<ColumnType>, pKeys: seq<string>, newProperties: Entry, keySource: Entry)
    returns (r: Result<seq<Binding>>)
    ensures r == UpdateBindings(table, types, pKeys, newProperties, keySource)
  {
    var setColumns := BindEach(1, newProperties.Names(), c => c !in pKeys, newProperties, types);
    assert Filter(newProperties.Names(), c => c !in pKeys) == UpdateSetColumns(pKeys, newProperties);
    if setColumns.Err? {
      return Err(setColumns.fault);
    }
    // The source tests for an empty key list inside the loop over `keySource`'s names, so it
    // throws at the first name.
    if |pKeys| == 0 && |keySource.Names()| > 0 {
      return Err(MissingKeysFault(table));
    }
    var keys := BindEach(1 + |setColumns.value|, keySource.Names(), c => c in pKeys, keySource, types);
    if keys.Err? {
      return Err(keys.fault);
    }
    return Ok(setColumns.value + keys.value);
  }

  /** A table without primary keys cannot be updated: a non-empty entry whose columns the table
      has always ends with the missing-keys fault. */
  lemma UpdateWithoutKeysFaults(table: string, types: seq<ColumnType>, entry: Entry)
    requires |entry.fields| > 0 && AllTyped(types, entry.Names())
    ensures UpdateBindings(table, types, [], entry, entry) == Err(MissingKeysFault(table))
  {
  }

  /** The bound values line up with the placeholders exactly when `keySource` lists every
      primary key, once, in key order. */
  lemma UpdateAligned(table: string, types: seq<ColumnType>, pKeys: seq<string>, newProperties: Entry, keySource: Entry)
    requires UpdateBindings(table, types, pKeys, newProperties, keySource).Ok?
    ensures BoundColumns(UpdateBindings(table, types, pKeys, newProperties, keySource).value)
              == UpdatePlaceholderColumns(pKeys, newProperties)
            <==> Filter(keySource.Names(), c => c in pKeys) == pKeys
  {
    var setColumns := UpdateSetColumns(pKeys, newProperties);
    var keyColumns := Filter(keySource.Names(), c => c in pKeys);
    UpdateBoundColumns(table, types, pKeys, newProperties, keySource);
    if setColumns + keyColumns == setColumns + pKeys {
      assert keyColumns == (setColumns + keyColumns)[|setColumns|..];
    }
  }

  /** A successful update binds the SET columns, then the key columns of `keySource`. */
  lemma UpdateBoundColumns(table: string, types: seq<ColumnType>, pKeys: seq<string>, newProperties: Entry, keySource: Entry)
    requires UpdateBindings(table, types, pKeys, newProperties, keySource).Ok?
    ensures BoundColumns(UpdateBindings(table, types, pKeys, newProperties, keySource).value)
            == UpdateSetColumns(pKeys, newProperties) + Filter(keySource.Names(), c => c in pKeys)
  {
    var setColumns := UpdateSetColumns(pKeys, newProperties);
    var keyColumns := Filter(keySource.Names(), c => c in pKeys);
    var first := Positioned(1, setColumns, newProperties, types);
    var second := Positioned(1 + |setColumns|, keyColumns, keySource, types);
    assert UpdateBindings(table, types, pKeys, newProperties, keySource).value == first + second;
    PositionedConcat(1, setColumns, newProperties, types, keyColumns, keySource, types);
  }

  // ---------------------------------------------------------------------------------------
  // DELETE

  /** `createDeleteSQL`: a condition for every primary key, in key order. */
  function DeleteSql(table: string, pKeys: seq<string>): string {
    "DELETE FROM " + table + " WHERE " + Join(MapSeq(pKeys, Condition), " AND ")
  }

  method CreateDeleteSql(table: string, pKeys: seq<string>) returns (sql: string)
    ensures sql == DeleteSql(table, pKeys)
  {
    sql := AppendEach("DELETE FROM " + table + " WHERE ", pKeys, c => true, Condition, " AND ");
    SelectIsMapOfFilter(pKeys, c => true, Condition);
    FilterAll(pKeys);
  }

  lemma DeletePlaceholders(table: string, pKeys: seq<string>)
    requires '?' !in table && PlainNames(pKeys)
    ensures CountChar(DeleteSql(table, pKeys), '?') == |pKeys|
  {
    ConditionsCount(pKeys, " AND ");
    CountAfterPlain("DELETE FROM " + table + " WHERE ", Join(MapSeq(pKeys, Condition), " AND "));
  }

  /** The key columns `deleteEntityInTable` binds as written: the table's columns, in the
      column-type map's order, that are primary keys. */
  function DeleteKeyColumnsAsWritten(types: seq<ColumnType>, pKeys: seq<string>): (r: seq<string>)
    ensures AllTyped(types, r)
  {
    var r := Filter(ColumnsOf(types), c => c in pKeys);
    assert AllTyped(types, r) by {
      forall c | c in r ensures c in ColumnsOf(types) {
        FilterMembership(ColumnsOf(types), c => c in pKeys, c);
      }
    }
    r
  }

  /** The binding loop of `deleteEntityInTable` as written. */
  method BindDeleteAsWritten(types: seq<ColumnType>, pKeys: seq<string>, entry: Entry) returns (bindings: seq<Binding>)
    ensures bindings == Positioned(1, DeleteKeyColumnsAsWritten(types, pKeys), entry, types)
  {
    var r := BindEach(1, ColumnsOf(types), c => c in pKeys, entry, types);
    assert Filter(ColumnsOf(types), c => c in pKeys) == DeleteKeyColumnsAsWritten(types, pKeys);
    bindings := r.value;
  }

  /** A composite key listed in a different order from the column map: the WHERE clause reads
      `b = ? AND a = ?`, but the first value bound is column `a`'s. */
  lemma DeleteBindsInColumnMapOrder()
    ensures DeleteKeyColumnsAsWritten([ColumnType("a", 4), ColumnType("b", 4)], ["b", "a"]) == ["a", "b"]
    ensures BoundColumns(Positioned(1, DeleteKeyColumnsAsWritten([ColumnType("a", 4), ColumnType("b", 4)], ["b", "a"]),
                                    Empty, [ColumnType("a", 4), ColumnType("b", 4)])) != ["b", "a"]
  {
    var types := [ColumnType("a", 4), ColumnType("b", 4)];
    var columns := ColumnsOf(types);
    assert columns == ["a", "b"];
    assert columns[..1] == ["a"];
    assert ["a"][..0] == [];
    assert Filter(columns, c => c in ["b", "a"]) == ["a", "b"];
    BoundColumnsOfPositioned(1, ["a", "b"], Empty, types);
  }

  /** The key bindings a DELETE needs: the primary keys in the order the WHERE clause lists
      them. */
  function DeleteBindings(types: seq<ColumnType>, pKeys: seq<string>, entry: Entry): (r: Result<seq<Binding>>)
    ensures AllTyped(types, pKeys) ==> r.Ok? && BoundColumns(r.value) == pKeys
  {
    Bound(1, pKeys, entry, types)
  }

  method BindDelete(types: seq<ColumnType>, pKeys: seq<string>, entry: Entry) returns (r: Result<seq<Binding>>)
    ensures r == DeleteBindings(types, pKeys, entry)
  {
    r := BindEach(1, pKeys, c => true, entry, types);
    FilterAll(pKeys);
  }

  /** When the key list follows the column map's order, the loop as written binds the same
      values as the corrected one. */
  lemma DeleteBindingsAgreeInMapOrder(types: seq<ColumnType>, pKeys: seq<string>, entry: Entry)
    requires DeleteKeyColumnsAsWritten(types, pKeys) == pKeys
    ensures DeleteBindings(types, pKeys, entry) == Ok(Positioned(1, DeleteKeyColumnsAsWritten(types, pKeys), entry, types))
  {
  }

  // ---------------------------------------------------------------------------------------
  // SELECT by key

  /** The table's columns, in column-map order, that the key entry names: the WHERE list. */
  function ReadKeyColumns(types: seq<ColumnType>, keys: Entry): seq<string> {
    Filter(ColumnsOf(types), c => c in keys.Names())
  }

  /** `createReadSqlWithKeys`. */
  function ReadWithKeysSql(table: string, types: seq<ColumnType>, keys: Entry): string {
    "SELECT * FROM " + table + " WHERE " + Join(MapSeq(ReadKeyColumns(types, keys), Condition), " AND ")
  }

  method CreateReadSqlWithKeys(table: string, types: seq<ColumnType>, keys: Entry) returns (sql: string)
    ensures sql == ReadWithKeysSql(table, types, keys)
  {
    sql := AppendEach("SELECT * FROM " + table + " WHERE ", ColumnsOf(types), c => c in keys.Names(), Condition, " AND ");
    SelectIsMapOfFilter(ColumnsOf(types), c => c in keys.Names(), Condition);
  }

  /** The key values `readTableWithKeys` binds: the key entry's columns that the table has, in
      the key entry's order. */
  method BindReadWithKeys(types: seq<ColumnType>, keys: Entry) returns (bindings: seq<Binding>)
    ensures bindings == Positioned(1, InsertColumns(types, keys), keys, types)
  {
    var r := BindEach(1, keys.Names(), c => c in ColumnsOf(types), keys, types);
    assert Filter(keys.Names(), c => c in ColumnsOf(types)) == InsertColumns(types, keys);
    bindings := r.value;
  }

  /** The SELECT by key names the same columns the handler binds, and the two agree position
      by position exactly when the key entry follows the column map's order. */
  lemma ReadWithKeysAligned(types: seq<ColumnType>, keys: Entry)
    ensures forall c :: c in ReadKeyColumns(types, keys) <==> c in InsertColumns(types, keys)
    ensures BoundColumns(Positioned(1, InsertColumns(types, keys), keys, types)) == ReadKeyColumns(types, keys)
            <==> InsertColumns(types, keys) == ReadKeyColumns(types, keys)
  {
    forall c ensures c in ReadKeyColumns(types, keys) <==> c in InsertColumns(types, keys) {
      FilterMembership(ColumnsOf(types), c => c in keys.Names(), c);
    }
    BoundColumnsOfPositioned(1, InsertColumns(types, keys), keys, types);
  }

  lemma ReadWithKeysPlaceholders(table: string, types: seq<ColumnType>, keys: Entry)
    requires '?' !in table && PlainNames(ColumnsOf(types))
    ensures CountChar(ReadWithKeysSql(table, types, keys), '?') == |ReadKeyColumns(types, keys)|
  {
    FilterPlain(ColumnsOf(types), c => c in keys.Names());
    ConditionsCount(ReadKeyColumns(types, keys), " AND ");
    CountAfterPlain("SELECT * FROM " + table + " WHERE ", Join(MapSeq(ReadKeyColumns(types, keys), Condition), " AND "));
  }
}
