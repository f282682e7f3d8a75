/** The CQL statements the Cassandra handler prepares for writes and keyed reads, and the
    parameters it binds to them. Every name in a statement goes through `preserveCase`, modelled
    as the function `quote`; each condition is `name = ?`. */
module CqlStatements {
  import opened Common
  import opened Text
  import opened Entries
  import opened Clauses
  import opened CqlTypes

  /** `quote(name) = ?` for every column, joined by `sep`. */
  function Conditions(columns: seq<string>, quote: string -> string, sep: string): string {
    Join(MapSeq(MapSeq(columns, quote), Condition), sep)
  }

  /** `preserveCase` wraps a name in double quotes and so adds no `?` to it. */
  ghost predicate KeepsPlain(quote: string -> string) {
    forall n :: '?' !in n ==> '?' !in quote(n)
  }

  /** The names of `names` that are not primary-key columns, in order. */
  function NonKeys(names: seq<string>, pKeys: seq<string>): seq<string> {
    Filter(names, c => c !in pKeys)
  }

  /** The names of `names` that are primary-key columns, in the order of `names`. */
  function KeysIn(names: seq<string>, pKeys: seq<string>): seq<string> {
    Filter(names, c => c in pKeys)
  }

  /** The columns of `columns` for which `entry` holds a non-null value, in column order. */
  function Present(columns: seq<string>, entry: Entry): seq<string> {
    Filter(columns, c => entry.GetValue(c).Some?)
  }

  /** The shared condition loop of the builders: for every name that passes `keep`, the separator
      (after the first) and `quote(name) = ?`. */
  method AppendConditions(prefix: string, names: seq<string>, keep: string -> bool, quote: string -> string, sep: string)
    returns (out: string)
    ensures out == prefix + Conditions(Filter(names, keep), quote, sep)
  {
    out := AppendEach(prefix, names, keep, c => Condition(quote(c)), sep);
    SelectIsMapOfFilter(names, keep, c => Condition(quote(c)));
    assert MapSeq(Filter(names, keep), c => Condition(quote(c)))
        == MapSeq(MapSeq(Filter(names, keep), quote), Condition);
  }

  /** Conditions over plain names hold one placeholder each. */
  lemma ConditionsPlaceholders(columns: seq<string>, quote: string -> string, sep: string)
    requires KeepsPlain(quote) && PlainNames(columns) && '?' !in sep
    ensures CountChar(Conditions(columns, quote, sep), '?') == |columns|
  {
    assert PlainNames(MapSeq(columns, quote));
    ConditionsCount(MapSeq(columns, quote), sep);
  }

  /** Conditions over the plain names that pass a test hold one placeholder each. */
  lemma FilteredConditionsPlaceholders(names: seq<string>, keep: string -> bool, quote: string -> string, sep: string)
    requires KeepsPlain(quote) && PlainNames(names) && '?' !in sep
    ensures CountChar(Conditions(Filter(names, keep), quote, sep), '?') == |Filter(names, keep)|
  {
    FilterPlain(names, keep);
    ConditionsPlaceholders(Filter(names, keep), quote, sep);
  }

  /** The parameters a statement binds name its placeholder columns in order. */
  lemma ParamColumnsOf(columns: seq<string>, entry: Entry)
    ensures ParamColumns(ParamsOf(columns, entry)) == columns
  {
  }

  /** Key and non-key names split a list of names in two. */
  lemma {:induction false} KeysPartition(names: seq<string>, pKeys: seq<string>)
    ensures |KeysIn(names, pKeys)| + |NonKeys(names, pKeys)| == |names|
  {
    if |names| > 0 {
      KeysPartition(names[..|names| - 1], pKeys);
    }
  }

  /** Two placeholder clauses after and between texts without `?`: the clauses' counts add up. */
  lemma ClausesCount(head: string, a: string, mid: string, b: string)
    requires '?' !in head && '?' !in mid
    ensures CountChar(head + a + mid + b, '?') == CountChar(a, '?') + CountChar(b, '?')
  {
    CountAfterPlain(head, a);
    CountSplice(head + a, mid, b);
  }

  lemma UpdateShapeCount(quoted: string, a: string, b: string)
    requires '?' !in quoted
    ensures CountChar("UPDATE " + quoted + " SET " + a + " WHERE " + b, '?') == CountChar(a, '?') + CountChar(b, '?')
  {
    ClausesCount("UPDATE " + quoted + " SET ", a, " WHERE ", b);
  }

  lemma DeleteShapeCount(quoted: string, a: string, b: string)
    requires '?' !in quoted
    ensures CountChar("DELETE FROM " + quoted + " WHERE " + a + " IF " + b, '?') == CountChar(a, '?') + CountChar(b, '?')
  {
    ClausesCount("DELETE FROM " + quoted + " WHERE ", a, " IF ", b);
  }

  // ---------------------------------------------------------------------------------------
  // INSERT

  /** `createInsertCQL`: the quoted columns of the table that have a non-null value in the
      entry, in metadata order, and as many placeholders. */
  function InsertCql(table: string, columns: seq<string>, entry: Entry, quote: string -> string): string {
    var kept := Present(columns, entry);
    "INSERT INTO " + quote(table) + " (" + Join(MapSeq(kept, quote), ",") + " ) VALUES ( "
    + Join(Repeat(" ? ", |kept|), ",") + " ) "
  }

  method CreateInsertCql(table: string, columns: seq<string>, entry: Entry, quote: string -> string)
    returns (cql: string)
    ensures cql == InsertCql(table, columns, entry, quote)
  {
    cql := AppendEach("INSERT INTO " + quote(table) + " (", columns, c => entry.GetValue(c).Some?, quote, ",");
    cql := AppendEach(cql + " ) VALUES ( ", columns, c => entry.GetValue(c).Some?, c => " ? ", ",");
    cql := cql + " ) ";
    SelectIsMapOfFilter(columns, c => entry.GetValue(c).Some?, quote);
    SelectIsMapOfFilter(columns, c => entry.GetValue(c).Some?, c => " ? ");
    assert MapSeq(Present(columns, entry), c => " ? ") == Repeat(" ? ", |Present(columns, entry)|);
  }

  /** The insert holds one placeholder per present column. */
  lemma InsertPlaceholders(table: string, columns: seq<string>, entry: Entry, quote: string -> string)
    requires KeepsPlain(quote) && '?' !in table && PlainNames(columns)
    ensures CountChar(InsertCql(table, columns, entry, quote), '?') == |Present(columns, entry)|
  {
    var kept := Present(columns, entry);
    FilterPlain(columns, c => entry.GetValue(c).Some?);
    assert PlainNames(MapSeq(kept, quote));
    JoinPlain(MapSeq(kept, quote), ",");
    var head := "INSERT INTO " + quote(table) + " (" + Join(MapSeq(kept, quote), ",") + " ) VALUES ( ";
    var marks := Join(Repeat(" ? ", |kept|), ",");
    assert CountChar(" ? ", '?') == 1 by {
      assert " ? " == " " + "?" + " ";
      CountCharAppend(" ", "?", '?');
      CountCharAppend(" " + "?", " ", '?');
      CountAbsent(" ", '?');
      assert CountChar("?", '?') == 1 by {
        assert "?"[..0] == "";
      }
    }
    PlaceholderCount(" ? ", ",", |kept|);
    CountAfterPlain(head, marks);
    CountCharAppend(head + marks, " ) ", '?');
    CountAbsent(" ) ", '?');
  }

  /** `insertEntityToTable` binds, in metadata order, every column the entry names with a
      non-null value. */
  function InsertParams(columns: seq<string>, entry: Entry): seq<Param> {
    ParamsOf(Filter(columns, c => c in entry.Names() && entry.GetValue(c).Some?), entry)
  }

  /** The inserted values line up with the placeholders: the same columns in the same order. */
  lemma InsertAligned(columns: seq<string>, entry: Entry)
    ensures ParamColumns(InsertParams(columns, entry)) == Present(columns, entry)
  {
    FilterSame(columns, c => c in entry.Names() && entry.GetValue(c).Some?, c => entry.GetValue(c).Some?);
  }

  // ---------------------------------------------------------------------------------------
  // UPDATE

  /** `createUpdateEntityCQL`: a SET condition for every non-key name of the new properties, and
      a WHERE condition for every primary key, in key order. */
  function UpdateCql(table: string, pKeys: seq<string>, newProperties: Entry, quote: string -> string): string {
    "UPDATE " + quote(table) + " SET " + Conditions(NonKeys(newProperties.Names(), pKeys), quote, ",")
    + " WHERE " + Conditions(pKeys, quote, " AND ")
  }

  method CreateUpdateCql(table: string, pKeys: seq<string>, newProperties: Entry, quote: string -> string)
    returns (cql: string)
    ensures cql == UpdateCql(table, pKeys, newProperties, quote)
  {
    cql := AppendConditions("UPDATE " + quote(table) + " SET ", newProperties.Names(), c => c !in pKeys, quote, ",");
    cql := AppendConditions(cql + " WHERE ", pKeys, c => true, quote, " AND ");
    FilterAll(pKeys);
  }

  /** The columns of the update's placeholders, in order. */
  function UpdatePlaceholderColumns(pKeys: seq<string>, newProperties: Entry): seq<string> {
    NonKeys(newProperties.Names(), pKeys) + pKeys
  }

  lemma UpdatePlaceholders(table: string, pKeys: seq<string>, newProperties: Entry, quote: string -> string)
    requires KeepsPlain(quote) && '?' !in table && PlainNames(newProperties.Names()) && PlainNames(pKeys)
    ensures CountChar(UpdateCql(table, pKeys, newProperties, quote), '?')
            == |UpdatePlaceholderColumns(pKeys, newProperties)|
  {
    var setColumns := NonKeys(newProperties.Names(), pKeys);
    FilteredConditionsPlaceholders(newProperties.Names(), c => c !in pKeys, quote, ",");
    ConditionsPlaceholders(pKeys, quote, " AND ");
    UpdateShapeCount(quote(table), Conditions(setColumns, quote, ","), Conditions(pKeys, quote, " AND "));
  }

  /** `updateEntityInTable` binds the non-key names of the new properties that are table
      columns, then the key names of the new properties, in the new properties' order. */
  function UpdateParams(columns: seq<string>, pKeys: seq<string>, newProperties: Entry): seq<Param> {
    ParamsOf(Filter(newProperties.Names(), c => c in columns && c !in pKeys), newProperties)
    + ParamsOf(KeysIn(newProperties.Names(), pKeys), newProperties)
  }

  /** The update's values line up with its placeholders when every non-key name of the new
      properties is a table column and the new properties list the keys in key order. */
  lemma UpdateAligned(columns: seq<string>, pKeys: seq<string>, newProperties: Entry)
    requires forall c :: c in newProperties.Names() && c !in pKeys ==> c in columns
    requires KeysIn(newProperties.Names(), pKeys) == pKeys
    ensures ParamColumns(UpdateParams(columns, pKeys, newProperties)) == UpdatePlaceholderColumns(pKeys, newProperties)
  {
    var names := newProperties.Names();
    FilterSame(names, c => c in columns && c !in pKeys, c => c !in pKeys);
    ParamsOfAppend(Filter(names, c => c in columns && c !in pKeys), KeysIn(names, pKeys), newProperties);
  }

  /** `createUpdateEntityTransactionalCQL`: the update, then an IF condition for every non-key
      name of the old properties. */
  function UpdateTransactionalCql(table: string, pKeys: seq<string>, oldProperties: Entry, newProperties: Entry,
                                  quote: string -> string): string
  {
    UpdateCql(table, pKeys, newProperties, quote) + " IF " + Conditions(NonKeys(oldProperties.Names(), pKeys), quote, " AND ")
  }

  method CreateUpdateTransactionalCql(table: string, pKeys: seq<string>, oldProperties: Entry, newProperties: Entry,
                                      quote: string -> string)
    returns (cql: string)
    ensures cql == UpdateTransactionalCql(table, pKeys, oldProperties, newProperties, quote)
  {
    cql := CreateUpdateCql(table, pKeys, newProperties, quote);
    cql := AppendConditions(cql + " IF ", oldProperties.Names(), c => c !in pKeys, quote, " AND ");
  }

  function UpdateTransactionalPlaceholderColumns(pKeys: seq<string>, oldProperties: Entry, newProperties: Entry)
    : seq<string>
  {
    UpdatePlaceholderColumns(pKeys, newProperties) + NonKeys(oldProperties.Names(), pKeys)
  }

  lemma UpdateTransactionalPlaceholders(table: string, pKeys: seq<string>, oldProperties: Entry, newProperties: Entry,
                                        quote: string -> string)
    requires KeepsPlain(quote) && '?' !in table && PlainNames(pKeys)
    requires PlainNames(newProperties.Names()) && PlainNames(oldProperties.Names())
    ensures CountChar(UpdateTransactionalCql(table, pKeys, oldProperties, newProperties, quote), '?')
            == |UpdateTransactionalPlaceholderColumns(pKeys, oldProperties, newProperties)|
  {
    UpdatePlaceholders(table, pKeys, newProperties, quote);
    FilterPlain(oldProperties.Names(), c => c !in pKeys);
    ConditionsPlaceholders(NonKeys(oldProperties.Names(), pKeys), quote, " AND ");
    CountSplice(UpdateCql(table, pKeys, newProperties, quote), " IF ",
                Conditions(NonKeys(oldProperties.Names(), pKeys), quote, " AND "));
  }

  /** `updateEntityInTableTransactional` binds the new non-key values that are table columns,
      then the old key values, then the old non-key values. */
  function UpdateTransactionalParams(columns: seq<string>, pKeys: seq<string>, oldProperties: Entry, newProperties: Entry)
    : seq<Param>
  {
    ParamsOf(Filter(newProperties.Names(), c => c in columns && c !in pKeys), newProperties)
    + ParamsOf(KeysIn(oldProperties.Names(), pKeys), oldProperties)
    + ParamsOf(NonKeys(oldProperties.Names(), pKeys), oldProperties)
  }

  /** The conditional update's values line up with its placeholders when every new non-key
      name is a table column and the old properties list the keys in key order. */
  lemma UpdateTransactionalAligned(columns: seq<string>, pKeys: seq<string>, oldProperties: Entry, newProperties: Entry)
    requires forall c :: c in newProperties.Names() && c !in pKeys ==> c in columns
    requires KeysIn(oldProperties.Names(), pKeys) == pKeys
    ensures ParamColumns(UpdateTransactionalParams(columns, pKeys, oldProperties, newProperties))
            == UpdateTransactionalPlaceholderColumns(pKeys, oldProperties, newProperties)
  {
    var names := newProperties.Names();
    var setColumns := Filter(names, c => c in columns && c !in pKeys);
    FilterSame(names, c => c in columns && c !in pKeys, c => c !in pKeys);
    var a := ParamsOf(setColumns, newProperties);
    var b := ParamsOf(KeysIn(oldProperties.Names(), pKeys), oldProperties);
    var c := ParamsOf(NonKeys(oldProperties.Names(), pKeys), oldProperties);
    ParamColumnsAppend(a + b, c);
    ParamColumnsAppend(a, b);
    ParamColumnsOf(setColumns, newProperties);
    ParamColumnsOf(KeysIn(oldProperties.Names(), pKeys), oldProperties);
    ParamColumnsOf(NonKeys(oldProperties.Names(), pKeys), oldProperties);
  }

  lemma ParamColumnsAppend(a: seq<Param>, b: seq<Param>)
    ensures ParamColumns(a + b) == ParamColumns(a) + ParamColumns(b)
  {
  }

  // ---------------------------------------------------------------------------------------
  // SELECT with keys

  /** `createReadSqlWithKeys`: a condition for every table column the keys entry holds a
      non-null value for, in metadata order. */
  function ReadWithKeysCql(table: string, columns: seq<string>, keys: Entry, quote: string -> string): string {
    "SELECT * FROM " + quote(table) + " WHERE " + Conditions(Present(columns, keys), quote, " AND ")
  }

  method CreateReadWithKeysCql(table: string, columns: seq<string>, keys: Entry, quote: string -> string)
    returns (cql: string)
    ensures cql == ReadWithKeysCql(table, columns, keys, quote)
  {
    cql := AppendConditions("SELECT * FROM " + quote(table) + " WHERE ", columns, c => keys.GetValue(c).Some?, quote, " AND ");
  }

  lemma ReadWithKeysPlaceholders(table: string, columns: seq<string>, keys: Entry, quote: string -> string)
    requires KeepsPlain(quote) && '?' !in table && PlainNames(columns)
    ensures CountChar(ReadWithKeysCql(table, columns, keys, quote), '?') == |Present(columns, keys)|
  {
    FilterPlain(columns, c => keys.GetValue(c).Some?);
    ConditionsPlaceholders(Present(columns, keys), quote, " AND ");
    CountAfterPlain("SELECT * FROM " + quote(table) + " WHERE ", Conditions(Present(columns, keys), quote, " AND "));
  }

  /** `readTableWithKeys` binds, in the keys entry's order, its names that are table columns and
      primary keys. */
  function ReadWithKeysParams(columns: seq<string>, pKeys: seq<string>, keys: Entry): seq<Param> {
    ParamsOf(Filter(keys.Names(), c => c in columns && c in pKeys), keys)
  }

  /** The keyed read's values line up with its placeholders when the keys entry holds exactly
      the present columns, in column order, and all of them are primary keys. */
  lemma ReadWithKeysAligned(columns: seq<string>, pKeys: seq<string>, keys: Entry)
    requires Present(columns, keys) == keys.Names()
    requires forall c :: c in keys.Names() ==> c in pKeys
    ensures ParamColumns(ReadWithKeysParams(columns, pKeys, keys)) == Present(columns, keys)
  {
    var names := keys.Names();
    forall k | 0 <= k < |names| ensures names[k] in columns && names[k] in pKeys {
      FilterMembership(columns, c => keys.GetValue(c).Some?, names[k]);
    }
    FilterSame(names, c => c in columns && c in pKeys, c => true);
    FilterAll(names);
  }

  // ---------------------------------------------------------------------------------------
  // DELETE

  /** `createDeleteCQL`: a condition for every primary key, in key order. */
  function DeleteCql(table: string, pKeys: seq<string>, quote: string -> string): string {
    "DELETE FROM " + quote(table) + " WHERE " + Conditions(pKeys, quote, " AND ")
  }

  method CreateDeleteCql(table: string, pKeys: seq<string>, quote: string -> string) returns (cql: string)
    ensures cql == DeleteCql(table, pKeys, quote)
  {
    cql := AppendConditions("DELETE FROM " + quote(table) + " WHERE ", pKeys, c => true, quote, " AND ");
    FilterAll(pKeys);
  }

  lemma DeletePlaceholders(table: string, pKeys: seq<string>, quote: string -> string)
    requires KeepsPlain(quote) && '?' !in table && PlainNames(pKeys)
    ensures CountChar(DeleteCql(table, pKeys, quote), '?') == |pKeys|
  {
    ConditionsPlaceholders(pKeys, quote, " AND ");
    CountAfterPlain("DELETE FROM " + quote(table) + " WHERE ", Conditions(pKeys, quote, " AND "));
  }

  /** The non-transactional delete binds the entry's key names, in the entry's order. */
  function DeleteParams(pKeys: seq<string>, entry: Entry): seq<Param> {
    ParamsOf(KeysIn(entry.Names(), pKeys), entry)
  }

  /** The delete's values line up with its placeholders exactly when the entry lists the
      primary keys, all of them and in key order; the statement's conditions are then, one by
      one, the columns whose values are bound. */
  lemma DeleteAligned(table: string, pKeys: seq<string>, entry: Entry, quote: string -> string)
    ensures ParamColumns(DeleteParams(pKeys, entry)) == pKeys <==> KeysIn(entry.Names(), pKeys) == pKeys
    ensures KeysIn(entry.Names(), pKeys) == pKeys ==>
      DeleteCql(table, pKeys, quote)
      == "DELETE FROM " + quote(table) + " WHERE " + Conditions(ParamColumns(DeleteParams(pKeys, entry)), quote, " AND ")
  {
    ParamColumnsOf(KeysIn(entry.Names(), pKeys), entry);
  }

  /** `createDeleteTransactionalCQL`: a WHERE condition for every key name of the entry, then an
      IF condition for every other name, both in the entry's order. */
  function DeleteTransactionalCql(table: string, pKeys: seq<string>, entry: Entry, quote: string -> string): string {
    "DELETE FROM " + quote(table) + " WHERE " + Conditions(KeysIn(entry.Names(), pKeys), quote, " AND ")
    + " IF " + Conditions(NonKeys(entry.Names(), pKeys), quote, " AND ")
  }

  method CreateDeleteTransactionalCql(table: string, pKeys: seq<string>, entry: Entry, quote: string -> string)
    returns (cql: string)
    ensures cql == DeleteTransactionalCql(table, pKeys, entry, quote)
  {
    cql := AppendConditions("DELETE FROM " + quote(table) + " WHERE ", entry.Names(), c => c in pKeys, quote, " AND ");
    cql := AppendConditions(cql + " IF ", entry.Names(), c => c !in pKeys, quote, " AND ");
  }

  /** The conditional delete holds one placeholder per name of the entry. */
  lemma DeleteTransactionalPlaceholders(table: string, pKeys: seq<string>, entry: Entry, quote: string -> string)
    requires KeepsPlain(quote) && '?' !in table && PlainNames(entry.Names())
    ensures CountChar(DeleteTransactionalCql(table, pKeys, entry, quote), '?') == |entry.Names()|
  {
    var names := entry.Names();
    FilteredConditionsPlaceholders(names, c => c in pKeys, quote, " AND ");
    FilteredConditionsPlaceholders(names, c => c !in pKeys, quote, " AND ");
    DeleteShapeCount(quote(table), Conditions(KeysIn(names, pKeys), quote, " AND "),
                     Conditions(NonKeys(names, pKeys), quote, " AND "));
    KeysPartition(names, pKeys);
  }

  /** The conditional delete binds the entry's key values, then its other values. */
  function DeleteTransactionalParams(pKeys: seq<string>, entry: Entry): seq<Param> {
    ParamsOf(KeysIn(entry.Names(), pKeys) + NonKeys(entry.Names(), pKeys), entry)
  }

  /** Whatever the entry, the conditional delete's values line up with its placeholders: its
      WHERE conditions are the first bound columns and its IF conditions the rest, in order, and
      every name of the entry is bound exactly once. */
  lemma DeleteTransactionalAligned(table: string, pKeys: seq<string>, entry: Entry, quote: string -> string)
    ensures var columns := ParamColumns(DeleteTransactionalParams(pKeys, entry));
      var split := |KeysIn(entry.Names(), pKeys)|;
      split <= |columns|
      && DeleteTransactionalCql(table, pKeys, entry, quote)
         == "DELETE FROM " + quote(table) + " WHERE " + Conditions(columns[..split], quote, " AND ")
            + " IF " + Conditions(columns[split..], quote, " AND ")
    ensures multiset(ParamColumns(DeleteTransactionalParams(pKeys, entry))) == multiset(entry.Names())
  {
    var keys := KeysIn(entry.Names(), pKeys);
    var others := NonKeys(entry.Names(), pKeys);
    ParamColumnsOf(keys + others, entry);
    assert (keys + others)[..|keys|] == keys && (keys + others)[|keys|..] == others;
    KeysPartitionMultiset(entry.Names(), pKeys);
  }

  /** Key and non-key names split a list of names into two parts that together hold each name
      as often as the list does. */
  lemma {:induction false} KeysPartitionMultiset(names: seq<string>, pKeys: seq<string>)
    ensures multiset(KeysIn(names, pKeys) + NonKeys(names, pKeys)) == multiset(names)
  {
    if |names| > 0 {
      var init := names[..|names| - 1];
      var last := names[|names| - 1];
      KeysPartitionMultiset(init, pKeys);
      assert names == init + [last];
    }
  }
}
