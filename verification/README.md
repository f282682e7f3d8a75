# OData data handlers of the WSO2 data services core

The data services server publishes relational and Cassandra tables as OData entity sets. Two
data handlers turn OData requests into statements:

- `RDBMSDataHandler` serves JDBC databases. It reads the catalog into per-table column metadata,
  JDBC types, primary keys and foreign-key navigation tables. It builds parameterised
  SELECT/INSERT/UPDATE/DELETE SQL and binds values with a running placeholder index. It renders
  `$top`/`$skip` for Oracle, SQL Server and MySQL/PostgreSQL, and links or unlinks entities
  along foreign keys.
- `CassandraDataHandler` serves a Cassandra keyspace. It builds CQL reads from `$select`,
  `$filter`, `$top` and `$skip`. It builds the write statements, including their conditional
  forms inside a transaction. It fills missing GUID keys on insert, binds values through a
  metadata type switch, and caches prepared statements in a bounded insertion-ordered map.

The model also covers three helpers of `DataServiceAdmin`: `doPaging` (60 items a page), its own
copy of the JDBC-to-OData type switch, and the splitting of service ids and names on `/`.

Module layout, one file each:

- `common.dfy`: Option, Result, faults, Java `int` bounds.
- `text.dfy`: the Java string operations used (split, trim, lower case, contains, integer rendering).
- `entries.dfy`: `ODataEntry`, an ordered list of named values.
- `odata_types.dfy`: the OData type enumeration.
- `clauses.dfy`: the builder and binding loops shared by the SQL statements.
- `pagination.dfy`: the page query generators.
- `rdbms_catalog.dfy`: catalog reading.
- `rdbms_sql.dfy`: the entity statements.
- `rdbms_references.dfy`: reference linking.
- `rdbms_handler.dfy`: the handler class.
- `cql_types.dfy`: type switches and `bindParams`.
- `cql_query.dfy`: `generateCassandraQuery`.
- `cql_statements.dfy`: the CQL builders.
- `statement_cache.dfy`: the prepared-statement cache class.
- `cassandra_handler.dfy`: the handler class.
- `admin.dfy`: the admin helpers.

The handlers stop at the statement they hand to the driver. A method returns the statement text
and the values it binds, in placeholder order, or the fault the Java code raises on the way.
A null dereference on a missing map entry is modelled as the fault `NullDereference`.
Most builders come in three parts:

- a method with the builder's loop, proved equal to a specification function;
- lemmas relating the text to its bindings: one `?` per bound value, and the k-th value binding
  the k-th placeholder's column;
- the conditions under which the two line up.

Java `HashMap` key orders, which the source does not fix, are modelled as sequences. The
properties are stated relative to that order. A `put` of a key already present replaces its
value where it stands, so a map never holds a key twice: `PutType` for the JDBC type maps,
`PutColumn` for a table's published columns.

Functions the model takes as parameters:

- the identifier quoting of `CassandraUtils.preserveCase`;
- the text the filter visitors render;
- `UUID.randomUUID`;
- `ODataUtils.generateETag`;
- the `DBConstants.NO_SCHEMA` value.

The JDBC catalog and the Cassandra keyspace metadata are given as values.

## Model

| member | source | states |
|---|---|---|
| Pagination.DialectOf | components/data-services/org.wso2.carbon.dataservices.core/src/main/java/org/wso2/carbon/dataservices/core/odata/RDBMSDataHandler.java:505-520 | oracle, microsoft sql server and mysql/postgresql select the three generators, each exactly for its product names; any other name has no generator |
| Pagination.OracleLimit | components/data-services/org.wso2.carbon.dataservices.core/src/main/java/org/wso2/carbon/dataservices/core/odata/RDBMSDataHandler.java:535-546 | the Oracle limit clause is empty exactly when both the row count and the offset are 0 |
| Pagination.OracleLimitRoundTrip | components/data-services/org.wso2.carbon.dataservices.core/src/main/java/org/wso2/carbon/dataservices/core/odata/RDBMSDataHandler.java:533-550 | decoding the Oracle clause (OFFSET/FETCH NEXT, FETCH FIRST, OFFSET alone, or nothing) gives back the requested row count and offset, for all integers |
| Pagination.OracleBothRoundTrip | components/data-services/org.wso2.carbon.dataservices.core/src/main/java/org/wso2/carbon/dataservices/core/odata/RDBMSDataHandler.java:535-539 | with both numbers non-zero the OFFSET ... FETCH NEXT clause decodes to the requested row count and offset |
| Pagination.OffsetFetchRoundTrip | components/data-services/org.wso2.carbon.dataservices.core/src/main/java/org/wso2/carbon/dataservices/core/odata/RDBMSDataHandler.java:561-562 | the SQL Server OFFSET ... FETCH NEXT clause decodes to the requested row count and offset, zeros included |
| Pagination.LimitOffsetClause | components/data-services/org.wso2.carbon.dataservices.core/src/main/java/org/wso2/carbon/dataservices/core/odata/RDBMSDataHandler.java:573-581 | the MySQL/PostgreSQL clause is empty exactly when both numbers are 0 |
| Pagination.LimitOffsetRoundTrip | components/data-services/org.wso2.carbon.dataservices.core/src/main/java/org/wso2/carbon/dataservices/core/odata/RDBMSDataHandler.java:571-584 | decoding ` limit r`, ` limit r offset o`, ` offset o` or nothing gives back the requested row count and offset |
| Pagination.OracleQuery | components/data-services/org.wso2.carbon.dataservices.core/src/main/java/org/wso2/carbon/dataservices/core/odata/RDBMSDataHandler.java:533-550 | the Oracle query is select + where + order followed by a clause that decodes to the requested page, set off by a space when the order clause is |
| Pagination.LimitOffsetQuery | components/data-services/org.wso2.carbon.dataservices.core/src/main/java/org/wso2/carbon/dataservices/core/odata/RDBMSDataHandler.java:571-584 | the same for the MySQL/PostgreSQL query |
| Pagination.MsSqlOrderAsWritten | components/data-services/org.wso2.carbon.dataservices.core/src/main/java/org/wso2/carbon/dataservices/core/odata/RDBMSDataHandler.java:557-560 | as written: the default `ORDER BY (SELECT 1)` when the trimmed order is empty, otherwise the trimmed order, which starts with no space |
| Pagination.MsSqlQueryAsWritten | components/data-services/org.wso2.carbon.dataservices.core/src/main/java/org/wso2/carbon/dataservices/core/odata/RDBMSDataHandler.java:555-566 | as written: select + where + that order, then an OFFSET/FETCH clause that always decodes to the requested page |
| Pagination.MsSqlGluesOrderClause | components/data-services/org.wso2.carbon.dataservices.core/src/main/java/org/wso2/carbon/dataservices/core/odata/RDBMSDataHandler.java:555-566 | for `Select * from T` with order ` order by name ASC` the written query is `Select * from Torder by name ASC ...`: the clause is not separated from the table name |
| Pagination.MsSqlOrder | components/data-services/org.wso2.carbon.dataservices.core/src/main/java/org/wso2/carbon/dataservices/core/odata/RDBMSDataHandler.java:557-560 | corrected: the default order, or the trimmed order set off by one space; never empty |
| Pagination.MsSqlQuery | components/data-services/org.wso2.carbon.dataservices.core/src/main/java/org/wso2/carbon/dataservices/core/odata/RDBMSDataHandler.java:555-566 | corrected SQL Server query: always ordered, always separated from select + where, ending in a clause that decodes to the requested page |
| Pagination.QueryBasedOnDbType | components/data-services/org.wso2.carbon.dataservices.core/src/main/java/org/wso2/carbon/dataservices/core/odata/RDBMSDataHandler.java:498-528 | as written: the query faults with `DB Type not supported. ` exactly when the lower-cased product name names no dialect. Otherwise it starts with select + where and ends in a clause that decodes to the requested page. SQL Server gets the as-written query, whose order clause may be glued to the table name; the other dialects keep their clauses separated |
| Pagination.QueryBasedOnDbTypeCorrected | components/data-services/org.wso2.carbon.dataservices.core/src/main/java/org/wso2/carbon/dataservices/core/odata/RDBMSDataHandler.java:498-528 | the same dispatch with the corrected SQL Server generator: the same fault, every dialect's page round-trips, and select + where stays separated from the order clause |
| RdbmsCatalog.GetODataDataType | components/data-services/org.wso2.carbon.dataservices.core/src/main/java/org/wso2/carbon/dataservices/core/odata/RDBMSDataHandler.java:1555-1629 | every JDBC code without a case of its own is published as STRING, and no code is published as GUID |
| RdbmsCatalog.EveryRelationalTypeReached | components/data-services/org.wso2.carbon.dataservices.core/src/main/java/org/wso2/carbon/dataservices/core/odata/RDBMSDataHandler.java:1555-1629 | every OData type other than GUID is the image of some JDBC code |
| RdbmsCatalog.ConfiguredTypes | components/data-services/org.wso2.carbon.dataservices.core/src/main/java/org/wso2/carbon/dataservices/core/odata/RDBMSDataHandler.java:1266-1274 | the configured column map holds exactly the names the configuration defines |
| RdbmsCatalog.ConfiguredTypeIsLast | components/data-services/org.wso2.carbon.dataservices.core/src/main/java/org/wso2/carbon/dataservices/core/odata/RDBMSDataHandler.java:1267-1273 | a name defined several times takes the type of its last definition |
| RdbmsCatalog.ColumnTypeMap | components/data-services/org.wso2.carbon.dataservices.core/src/main/java/org/wso2/carbon/dataservices/core/odata/RDBMSDataHandler.java:1266-1274 | the `for` loop building `colTypeMap` yields the configured column map |
| RdbmsCatalog.AutoIncrementCaseInsensitive | components/data-services/org.wso2.carbon.dataservices.core/src/main/java/org/wso2/carbon/dataservices/core/odata/RDBMSDataHandler.java:1285-1289 | the auto-increment test gives the same answer whatever the letter case of the flag |
| RdbmsCatalog.AutoIncrementSpellings | components/data-services/org.wso2.carbon.dataservices.core/src/main/java/org/wso2/carbon/dataservices/core/odata/RDBMSDataHandler.java:1285-1289 | `YES` and `true` mark an auto-increment column; `NO` and the empty text do not |
| RdbmsCatalog.PublishedType | components/data-services/org.wso2.carbon.dataservices.core/src/main/java/org/wso2/carbon/dataservices/core/odata/RDBMSDataHandler.java:1279-1281 | with nothing configured a column takes its mapped JDBC type; otherwise it takes the `valueOf` of its configured type name |
| RdbmsCatalog.MakeColumn | components/data-services/org.wso2.carbon.dataservices.core/src/main/java/org/wso2/carbon/dataservices/core/odata/RDBMSDataHandler.java:1280-1306 | a column is made exactly when its type resolves. It carries the row's name and ordinal. Numeric columns get precision = size and scale = DECIMAL_DIGITS, or 5 when that is 0; other columns get neither |
| RdbmsCatalog.KeptRows | components/data-services/org.wso2.carbon.dataservices.core/src/main/java/org/wso2/carbon/dataservices/core/odata/RDBMSDataHandler.java:1279 | the kept rows are configured ones, in catalog order; with nothing configured every row is kept |
| RdbmsCatalog.PublishedColumnsNames | components/data-services/org.wso2.carbon.dataservices.core/src/main/java/org/wso2/carbon/dataservices/core/odata/RDBMSDataHandler.java:1276-1311 | `columnMap.put` keeps one column per name, the last kept row's; a successful read publishes distinct names, exactly the names of the kept rows |
| RdbmsCatalog.PutColumnSpec | components/data-services/org.wso2.carbon.dataservices.core/src/main/java/org/wso2/carbon/dataservices/core/odata/RDBMSDataHandler.java:1307 | `put` of a new name appends its column; `put` of a known name replaces that column where it stands and leaves the others; names stay distinct |
| RdbmsCatalog.PublishedColumnsMade | components/data-services/org.wso2.carbon.dataservices.core/src/main/java/org/wso2/carbon/dataservices/core/odata/RDBMSDataHandler.java:1276-1311 | every published column is the column made from the last kept row of its name, numbered by that row's position among the kept rows; every such row's column is published |
| RdbmsCatalog.AllColumnsWhenUnconfigured | components/data-services/org.wso2.carbon.dataservices.core/src/main/java/org/wso2/carbon/dataservices/core/odata/RDBMSDataHandler.java:1279-1306 | with no configured columns the read always succeeds; when the catalog's names are distinct every row is published, in order, with its mapped type and 1-based position |
| RdbmsCatalog.DuplicateColumnNameLastWins | components/data-services/org.wso2.carbon.dataservices.core/src/main/java/org/wso2/carbon/dataservices/core/odata/RDBMSDataHandler.java:1276-1311 | two catalog rows named `id` (INTEGER, then VARCHAR) publish a single column `id` of type STRING with ordinal 2: the later row wins |
| RdbmsCatalog.KeptRowsAreConfigured | components/data-services/org.wso2.carbon.dataservices.core/src/main/java/org/wso2/carbon/dataservices/core/odata/RDBMSDataHandler.java:1279 | with columns configured, a row is kept exactly when it is a catalog row whose name is configured |
| RdbmsCatalog.PublishedFailureSticks | components/data-services/org.wso2.carbon.dataservices.core/src/main/java/org/wso2/carbon/dataservices/core/odata/RDBMSDataHandler.java:1280-1281 | once a prefix of the rows fails with a `valueOf` fault, that fault is the result |
| RdbmsCatalog.TablesOf | components/data-services/org.wso2.carbon.dataservices.core/src/main/java/org/wso2/carbon/dataservices/core/odata/RDBMSDataHandler.java:268 | a navigation table lists one importing table per edge, in the order they were added |
| RdbmsCatalog.NavigationKeysOf | components/data-services/org.wso2.carbon.dataservices.core/src/main/java/org/wso2/carbon/dataservices/core/odata/RDBMSDataHandler.java:268-270 | `getNavigationKeys` finds a key list exactly for the tables the navigation table lists |
| RdbmsCatalog.AddNavigationKey | components/data-services/org.wso2.carbon.dataservices.core/src/main/java/org/wso2/carbon/dataservices/core/odata/RDBMSDataHandler.java:1418-1428 | adding a row appends its key pair to its table's list, or creates a new list at the end for a new table; every other table is unchanged |
| RdbmsCatalog.GroupForeignKeysSpec | components/data-services/org.wso2.carbon.dataservices.core/src/main/java/org/wso2/carbon/dataservices/core/odata/RDBMSDataHandler.java:1412-1436 | grouping lists each importing table once, in order of first appearance, with exactly its rows' key pairs in row order |
| RdbmsCatalog.FirstAppearances | components/data-services/org.wso2.carbon.dataservices.core/src/main/java/org/wso2/carbon/dataservices/core/odata/RDBMSDataHandler.java:1418-1429 | the grouped tables are exactly the importing tables of the rows |
| RdbmsCatalog.ReadForeignKeys | components/data-services/org.wso2.carbon.dataservices.core/src/main/java/org/wso2/carbon/dataservices/core/odata/RDBMSDataHandler.java:1416-1430 | the `while` loop over the foreign-key rows builds the grouped navigation table |
| RdbmsCatalog.TableSchemaPattern | components/data-services/org.wso2.carbon.dataservices.core/src/main/java/org/wso2/carbon/dataservices/core/odata/RDBMSDataHandler.java:1360-1364 | the catalog is asked for the user's own schema exactly when the product name contains `oracle` |
| RdbmsCatalog.GenerateTableList | components/data-services/org.wso2.carbon.dataservices.core/src/main/java/org/wso2/carbon/dataservices/core/odata/RDBMSDataHandler.java:1353-1378 | the table list is the catalog's tables that are configured, in catalog order; both directions of membership hold |
| Clauses.AppendEach | components/data-services/org.wso2.carbon.dataservices.core/src/main/java/org/wso2/carbon/dataservices/core/odata/RDBMSDataHandler.java:1454-1463 | the `propertyMatch` loop appends every kept item, rendered and separated by the separator, after the prefix |
| Clauses.PutTypeSpec | components/data-services/org.wso2.carbon.dataservices.core/src/main/java/org/wso2/carbon/dataservices/core/odata/RDBMSDataHandler.java:1054-1061 | `put` gives the column its new code, leaves every other column's code alone, and keeps the column order, appending a new column |
| Clauses.Positioned | components/data-services/org.wso2.carbon.dataservices.core/src/main/java/org/wso2/carbon/dataservices/core/odata/RDBMSDataHandler.java:673-681 | binding k binds the k-th column at position start + k, with that column's value in the entry and its type |
| Clauses.Bound | components/data-services/org.wso2.carbon.dataservices.core/src/main/java/org/wso2/carbon/dataservices/core/odata/RDBMSDataHandler.java:944-952 | binding succeeds exactly when every column has a type; a missing type fails the `Integer` unboxing |
| Clauses.BindEach | components/data-services/org.wso2.carbon.dataservices.core/src/main/java/org/wso2/carbon/dataservices/core/odata/RDBMSDataHandler.java:944-952 | the running-index loop produces the bindings of the kept names, in order, or the unboxing fault |
| Clauses.UntypedFails | components/data-services/org.wso2.carbon.dataservices.core/src/main/java/org/wso2/carbon/dataservices/core/odata/RDBMSDataHandler.java:946-949 | a kept name without a type makes the loop fail with a null dereference |
| Clauses.PositionedAppend | components/data-services/org.wso2.carbon.dataservices.core/src/main/java/org/wso2/carbon/dataservices/core/odata/RDBMSDataHandler.java:944-965 | two binding loops, the second starting at the index where the first stopped, number their placeholders consecutively |
| Clauses.ConditionsCount | components/data-services/org.wso2.carbon.dataservices.core/src/main/java/org/wso2/carbon/dataservices/core/odata/RDBMSDataHandler.java:1466-1473 | a list of `column = ?` conditions over names without `?` holds one placeholder per condition |
| RdbmsSql.InsertColumns | components/data-services/org.wso2.carbon.dataservices.core/src/main/java/org/wso2/carbon/dataservices/core/odata/RDBMSDataHandler.java:1487-1495 | INSERT lists exactly the entry's columns that the table has, and each has a type |
| RdbmsSql.CreateInsertSql | components/data-services/org.wso2.carbon.dataservices.core/src/main/java/org/wso2/carbon/dataservices/core/odata/RDBMSDataHandler.java:1483-1509 | the builder loop yields the INSERT text over those columns, with one `?` each |
| RdbmsSql.BindInsert | components/data-services/org.wso2.carbon.dataservices.core/src/main/java/org/wso2/carbon/dataservices/core/odata/RDBMSDataHandler.java:673-681 | insert binds the listed columns at positions 1, 2, ... |
| RdbmsSql.InsertPlaceholders | components/data-services/org.wso2.carbon.dataservices.core/src/main/java/org/wso2/carbon/dataservices/core/odata/RDBMSDataHandler.java:1483-1509 | the INSERT holds exactly as many `?` as values bound, and the k-th value binds the k-th listed column |
| RdbmsSql.UpdateSetColumns | components/data-services/org.wso2.carbon.dataservices.core/src/main/java/org/wso2/carbon/dataservices/core/odata/RDBMSDataHandler.java:1455-1463 | SET lists exactly the entry's non-key columns, in entry order |
| RdbmsSql.CreateUpdateEntitySql | components/data-services/org.wso2.carbon.dataservices.core/src/main/java/org/wso2/carbon/dataservices/core/odata/RDBMSDataHandler.java:1450-1475 | the builder loops yield SET over the non-key columns, then WHERE over every primary key in key order, joined by AND |
| RdbmsSql.UpdatePlaceholders | components/data-services/org.wso2.carbon.dataservices.core/src/main/java/org/wso2/carbon/dataservices/core/odata/RDBMSDataHandler.java:1450-1475 | the UPDATE holds one `?` per SET column and one per key |
| RdbmsSql.BindUpdate | components/data-services/org.wso2.carbon.dataservices.core/src/main/java/org/wso2/carbon/dataservices/core/odata/RDBMSDataHandler.java:944-965 | the two binding loops of `updateEntityInTable` compute the update bindings, or their fault |
| RdbmsSql.UpdateWithoutKeysFaults | components/data-services/org.wso2.carbon.dataservices.core/src/main/java/org/wso2/carbon/dataservices/core/odata/RDBMSDataHandler.java:953-964 | a table without primary keys and a non-empty entry whose columns it has always faults with `couldn't find keys` |
| RdbmsSql.UpdateAligned | components/data-services/org.wso2.carbon.dataservices.core/src/main/java/org/wso2/carbon/dataservices/core/odata/RDBMSDataHandler.java:944-1009 | the bound values line up with the placeholders exactly when the key source lists every primary key once, in key order |
| RdbmsSql.UpdateBoundColumns | components/data-services/org.wso2.carbon.dataservices.core/src/main/java/org/wso2/carbon/dataservices/core/odata/RDBMSDataHandler.java:944-1009 | a successful update binds the SET columns, then the key source's key columns, at consecutive positions from 1 |
| RdbmsSql.CreateDeleteSql | components/data-services/org.wso2.carbon.dataservices.core/src/main/java/org/wso2/carbon/dataservices/core/odata/RDBMSDataHandler.java:1540-1553 | the builder loop yields a `key = ?` condition for every primary key, in key order |
| RdbmsSql.DeletePlaceholders | components/data-services/org.wso2.carbon.dataservices.core/src/main/java/org/wso2/carbon/dataservices/core/odata/RDBMSDataHandler.java:1540-1553 | the DELETE holds one `?` per primary key |
| RdbmsSql.DeleteKeyColumnsAsWritten | components/data-services/org.wso2.carbon.dataservices.core/src/main/java/org/wso2/carbon/dataservices/core/odata/RDBMSDataHandler.java:1033-1034 | as written: the keys bound are the table's typed columns that are primary keys, in column-map order |
| RdbmsSql.BindDeleteAsWritten | components/data-services/org.wso2.carbon.dataservices.core/src/main/java/org/wso2/carbon/dataservices/core/odata/RDBMSDataHandler.java:1032-1040 | as written: the binding loop binds those columns at positions 1, 2, ... |
| RdbmsSql.DeleteBindsInColumnMapOrder | components/data-services/org.wso2.carbon.dataservices.core/src/main/java/org/wso2/carbon/dataservices/core/odata/RDBMSDataHandler.java:1030-1040 | with keys listed as [b, a] and the column map as [a, b], the WHERE reads `b = ? AND a = ?` but a's value is bound first |
| RdbmsSql.DeleteBindings | components/data-services/org.wso2.carbon.dataservices.core/src/main/java/org/wso2/carbon/dataservices/core/odata/RDBMSDataHandler.java:1030-1040 | corrected: when every key has a type, the DELETE binds the primary keys in the order the WHERE lists them |
| RdbmsSql.BindDelete | components/data-services/org.wso2.carbon.dataservices.core/src/main/java/org/wso2/carbon/dataservices/core/odata/RDBMSDataHandler.java:1032-1040 | the corrected binding loop computes those bindings |
| RdbmsSql.DeleteBindingsAgreeInMapOrder | components/data-services/org.wso2.carbon.dataservices.core/src/main/java/org/wso2/carbon/dataservices/core/odata/RDBMSDataHandler.java:1032-1040 | when the key list follows the column map's order, the written loop and the corrected one bind the same values |
| RdbmsSql.CreateReadSqlWithKeys | components/data-services/org.wso2.carbon.dataservices.core/src/main/java/org/wso2/carbon/dataservices/core/odata/RDBMSDataHandler.java:1518-1532 | the builder loop yields the SELECT by key over the table's columns that the key entry names, in column-map order |
| RdbmsSql.BindReadWithKeys | components/data-services/org.wso2.carbon.dataservices.core/src/main/java/org/wso2/carbon/dataservices/core/odata/RDBMSDataHandler.java:735-743 | `readTableWithKeys` binds the key entry's names that the table has, in the entry's order |
| RdbmsSql.ReadWithKeysAligned | components/data-services/org.wso2.carbon.dataservices.core/src/main/java/org/wso2/carbon/dataservices/core/odata/RDBMSDataHandler.java:733-743 | the bound names and the WHERE names are the same set. They agree position by position exactly when the key entry follows column-map order |
| RdbmsSql.ReadWithKeysPlaceholders | components/data-services/org.wso2.carbon.dataservices.core/src/main/java/org/wso2/carbon/dataservices/core/odata/RDBMSDataHandler.java:1518-1532 | the SELECT holds one `?` per WHERE column |
| RdbmsReferences.TableTypes | components/data-services/org.wso2.carbon.dataservices.core/src/main/java/org/wso2/carbon/dataservices/core/odata/RDBMSDataHandler.java:337 | `rdbmsDataTypes.get(table)` for a table without a map behaves as an empty map: every column lookup in it fails |
| RdbmsReferences.ReferenceSides | components/data-services/org.wso2.carbon.dataservices.core/src/main/java/org/wso2/carbon/dataservices/core/odata/RDBMSDataHandler.java:266-288 | the root table is the exporting side exactly when its navigation table lists the other table; otherwise the other table exports, and a pair with no link faults |
| RdbmsReferences.ReferenceSidesSymmetric | components/data-services/org.wso2.carbon.dataservices.core/src/main/java/org/wso2/carbon/dataservices/core/odata/RDBMSDataHandler.java:266-288 | when only one of two tables exports to the other, naming either one as root finds the same sides |
| RdbmsReferences.CreateAddReferenceSql | components/data-services/org.wso2.carbon.dataservices.core/src/main/java/org/wso2/carbon/dataservices/core/odata/RDBMSDataHandler.java:420-443 | the reference UPDATE sets every foreign-key column of the edge and has a WHERE over the importing table's primary keys |
| RdbmsReferences.AddReferencePlaceholders | components/data-services/org.wso2.carbon.dataservices.core/src/main/java/org/wso2/carbon/dataservices/core/odata/RDBMSDataHandler.java:420-443 | that UPDATE holds one `?` per key pair and one per primary key |
| RdbmsReferences.CreateSelectReferenceSql | components/data-services/org.wso2.carbon.dataservices.core/src/main/java/org/wso2/carbon/dataservices/core/odata/RDBMSDataHandler.java:394-418 | the key SELECT reads the edge's primary-key columns where the exporting table's non-null keyed columns match |
| RdbmsReferences.SelectReferencePlaceholders | components/data-services/org.wso2.carbon.dataservices.core/src/main/java/org/wso2/carbon/dataservices/core/odata/RDBMSDataHandler.java:394-418 | the key SELECT holds one `?` per keyed column |
| RdbmsReferences.BindSelectReference | components/data-services/org.wso2.carbon.dataservices.core/src/main/java/org/wso2/carbon/dataservices/core/odata/RDBMSDataHandler.java:368-373 | the key SELECT binds every name of the key entry, null or not, with its type in the exporting table |
| RdbmsReferences.SelectReferenceAligned | components/data-services/org.wso2.carbon.dataservices.core/src/main/java/org/wso2/carbon/dataservices/core/odata/RDBMSDataHandler.java:366-373 | those bindings line up with the placeholders exactly when the key entry lists the keyed columns in column-map order, with no null |
| RdbmsReferences.ForeignKeyValuesAsWritten | components/data-services/org.wso2.carbon.dataservices.core/src/main/java/org/wso2/carbon/dataservices/core/odata/RDBMSDataHandler.java:375-385 | as written: the `while (next())` loop inside the `for` loop reads the rows for the first key pair only |
| RdbmsReferences.LastValueOf | components/data-services/org.wso2.carbon.dataservices.core/src/main/java/org/wso2/carbon/dataservices/core/odata/RDBMSDataHandler.java:379-383 | the inner loop leaves the column's value from the last row, or adds nothing when no row comes back |
| RdbmsReferences.CompositeKeyLosesColumns | components/data-services/org.wso2.carbon.dataservices.core/src/main/java/org/wso2/carbon/dataservices/core/odata/RDBMSDataHandler.java:377-384 | with a two-column key and one row, the written code returns the first column's value only |
| RdbmsReferences.ForeignKeyValues | components/data-services/org.wso2.carbon.dataservices.core/src/main/java/org/wso2/carbon/dataservices/core/odata/RDBMSDataHandler.java:375-385 | corrected: every key pair's primary-key column, with its value in the row read; nothing when no row matches |
| RdbmsReferences.ForeignKeyValuesKeepsComposite | components/data-services/org.wso2.carbon.dataservices.core/src/main/java/org/wso2/carbon/dataservices/core/odata/RDBMSDataHandler.java:375-385 | on the same two-column key the corrected reading keeps both columns |
| RdbmsReferences.ModifyReferences | components/data-services/org.wso2.carbon.dataservices.core/src/main/java/org/wso2/carbon/dataservices/core/odata/RDBMSDataHandler.java:326-346 | `modifyReferences` prepares the reference UPDATE. It faults exactly when the importing table has no key list or a bound column has no type |
| RdbmsReferences.ModifyReferencesBindings | components/data-services/org.wso2.carbon.dataservices.core/src/main/java/org/wso2/carbon/dataservices/core/odata/RDBMSDataHandler.java:334-346 | a successful modification binds the modified columns, then the key columns, at consecutive positions from 1 |
| RdbmsReferences.BindModifyReferences | components/data-services/org.wso2.carbon.dataservices.core/src/main/java/org/wso2/carbon/dataservices/core/odata/RDBMSDataHandler.java:334-346 | the two running-index loops compute those bindings |
| RdbmsReferences.UpdateReference | components/data-services/org.wso2.carbon.dataservices.core/src/main/java/org/wso2/carbon/dataservices/core/odata/RDBMSDataHandler.java:261-291 | as written: linking succeeds exactly when the reference sides are found, the exporting table has a type map typing its key columns and the first key column's value, and the UPDATE can bind. The SELECT reads the exporting table's keys from the entry. The UPDATE sets the edge's foreign-key columns from the first key pair's value only, then binds the importing keys |
| RdbmsReferences.UpdateReferenceCorrected | components/data-services/org.wso2.carbon.dataservices.core/src/main/java/org/wso2/carbon/dataservices/core/odata/RDBMSDataHandler.java:261-291 | corrected: the same statements with a value for every key pair of the edge; when the exporting row is found, every key column of the edge is bound in the UPDATE |
| RdbmsReferences.DeleteReferenceAsWritten | components/data-services/org.wso2.carbon.dataservices.core/src/main/java/org/wso2/carbon/dataservices/core/odata/RDBMSDataHandler.java:294-324 | as written: unlinking succeeds exactly when the sides are found, the importing table has a key list, every foreign-key column of the edge has a type in the EXPORTING table, and the importing key columns have types in the importing table; the statement is then the reference UPDATE of the importing table with those foreign-key columns set to null, typed by the exporting table |
| RdbmsReferences.DeleteReferenceAsWrittenNulls | components/data-services/org.wso2.carbon.dataservices.core/src/main/java/org/wso2/carbon/dataservices/core/odata/RDBMSDataHandler.java:319-323 | when the as-written unlinking succeeds it binds null into exactly the foreign-key columns of the edge, then the importing side's key values |
| RdbmsReferences.DeleteReferenceLooksUpWrongTable | components/data-services/org.wso2.carbon.dataservices.core/src/main/java/org/wso2/carbon/dataservices/core/odata/RDBMSDataHandler.java:319-323 | unlinking an employee (`dept_id`) from its department (`id`) faults as written, since `dept_id` has no type in the department table |
| RdbmsReferences.DeleteReference | components/data-services/org.wso2.carbon.dataservices.core/src/main/java/org/wso2/carbon/dataservices/core/odata/RDBMSDataHandler.java:294-324 | corrected: unlinking succeeds only when the sides are found. It is the reference UPDATE of the importing table, setting every foreign-key column of the edge to null, with the types of the importing table |
| RdbmsReferences.DeleteReferenceNullsForeignKeys | components/data-services/org.wso2.carbon.dataservices.core/src/main/java/org/wso2/carbon/dataservices/core/odata/RDBMSDataHandler.java:319-323 | unlinking writes null into exactly the foreign-key columns of the edge and selects rows by the importing side's key values |
| RdbmsReferences.DeleteReferenceUnlinks | components/data-services/org.wso2.carbon.dataservices.core/src/main/java/org/wso2/carbon/dataservices/core/odata/RDBMSDataHandler.java:294-324 | the corrected unlinking succeeds on the department example, with one null for `dept_id` and then the employee key |
| RdbmsHandler.GetOrderBy | components/data-services/org.wso2.carbon.dataservices.core/src/main/java/org/wso2/carbon/dataservices/core/odata/RDBMSDataHandler.java:586-597 | one order term per `$orderby` item, in order, and a term ends in ` DESC` exactly when its item is descending |
| RdbmsHandler.DirectionSuffix | components/data-services/org.wso2.carbon.dataservices.core/src/main/java/org/wso2/carbon/dataservices/core/odata/RDBMSDataHandler.java:590-593 | the direction of an item can be read back from its term |
| RdbmsHandler.OrderClause | components/data-services/org.wso2.carbon.dataservices.core/src/main/java/org/wso2/carbon/dataservices/core/odata/RDBMSDataHandler.java:466-469 | the ORDER BY part is empty without `$orderby` and otherwise starts with a space |
| RdbmsHandler.WithTypesSpec | components/data-services/org.wso2.carbon.dataservices.core/src/main/java/org/wso2/carbon/dataservices/core/odata/RDBMSDataHandler.java:1307-1308 | recording a table's column types leaves other tables alone, keeps that table's old columns and types every recorded row |
| RdbmsHandler.TypedAfterReading | components/data-services/org.wso2.carbon.dataservices.core/src/main/java/org/wso2/carbon/dataservices/core/odata/RDBMSDataHandler.java:1326-1345 | reading one more table keeps every published column of the tables read typed, including the new table's |
| RdbmsHandler.RowEntity | components/data-services/org.wso2.carbon.dataservices.core/src/main/java/org/wso2/carbon/dataservices/core/odata/RDBMSDataHandler.java:1077-1087 | an entity holds every column of the table's type map with its value in the row, plus an ETag computed from those values, and nothing else |
| RdbmsHandler.CopyRow | components/data-services/org.wso2.carbon.dataservices.core/src/main/java/org/wso2/carbon/dataservices/core/odata/RDBMSDataHandler.java:1080-1084 | the per-column loop copies the row's values for the given columns |
| RdbmsHandler.RdbmsHandler.constructor | components/data-services/org.wso2.carbon.dataservices.core/src/main/java/org/wso2/carbon/dataservices/core/odata/RDBMSDataHandler.java:141-186 | records the configuration: the limit, the product, the table names in order, the schema of each table's last configuration, and under each schema-qualified key the columns of the last configuration with that key. The table list is the configured tables the catalog holds, in catalog order. The metadata maps are empty until `initializeMetaData` runs |
| RdbmsHandler.RdbmsHandler.Create | components/data-services/org.wso2.carbon.dataservices.core/src/main/java/org/wso2/carbon/dataservices/core/odata/RDBMSDataHandler.java:141-188 | the whole constructor, ending in `initializeMetaData`: the configuration maps are those the configuration's `put` calls leave, the table list is the catalog-ordered filter, and every listed table has its published columns (filtered by the column types the configuration gives it), grouped foreign keys and primary keys, each published column typed. A listed table whose last configuration no later one shadows is published with exactly that configuration's column types. A failed read means no handler, and happens only when some configured table is in the catalog |
| RdbmsHandler.TableSchemasConfigured | components/data-services/org.wso2.carbon.dataservices.core/src/main/java/org/wso2/carbon/dataservices/core/odata/RDBMSDataHandler.java:156-163 | only configured table names get a schema entry |
| RdbmsHandler.ColumnsConfigsKeys | components/data-services/org.wso2.carbon.dataservices.core/src/main/java/org/wso2/carbon/dataservices/core/odata/RDBMSDataHandler.java:156-177 | the column configuration holds exactly the schema-qualified keys (`schema + "." + name`, `null` for no schema) of the configured tables |
| RdbmsHandler.TableSchemaIsLast | components/data-services/org.wso2.carbon.dataservices.core/src/main/java/org/wso2/carbon/dataservices/core/odata/RDBMSDataHandler.java:163 | the schema recorded for a name is that of its last configuration (none when that one names no schema) |
| RdbmsHandler.ColumnsConfigIsLast | components/data-services/org.wso2.carbon.dataservices.core/src/main/java/org/wso2/carbon/dataservices/core/odata/RDBMSDataHandler.java:164-177 | the columns stored under a key are those of the last configuration with that key |
| RdbmsHandler.ParsedConfiguration | components/data-services/org.wso2.carbon.dataservices.core/src/main/java/org/wso2/carbon/dataservices/core/odata/RDBMSDataHandler.java:156-178 | the three facts above for every configuration at once: last schema per name, every key present, last columns per key |
| RdbmsHandler.ConfiguredByLastConfig | components/data-services/org.wso2.carbon.dataservices.core/src/main/java/org/wso2/carbon/dataservices/core/odata/RDBMSDataHandler.java:156-178 | the column types a table is read with are those of its last configuration, unless a later configuration of another table spells the same key (`a.b` + `c` and `a` + `b.c`) |
| RdbmsHandler.RdbmsHandler.AddDataType | components/data-services/org.wso2.carbon.dataservices.core/src/main/java/org/wso2/carbon/dataservices/core/odata/RDBMSDataHandler.java:1054-1061 | `addDataType` gives the column its code in the table's map, creating the map on first use; the other maps are unchanged |
| RdbmsHandler.RdbmsHandler.ReadTableColumnMetaData | components/data-services/org.wso2.carbon.dataservices.core/src/main/java/org/wso2/carbon/dataservices/core/odata/RDBMSDataHandler.java:1257-1319 | returns the table's published columns for its configured types, one per column name with the last kept row winning, or the `valueOf` fault. On success every kept row has been recorded with `addDataType` |
| RdbmsHandler.RdbmsHandler.ReadColumns | components/data-services/org.wso2.carbon.dataservices.core/src/main/java/org/wso2/carbon/dataservices/core/odata/RDBMSDataHandler.java:1275-1311 | the catalog-row loop `put`s each kept row's column by name, computing the published columns, and records the kept rows' types |
| RdbmsHandler.RdbmsHandler.InitializeMetaData | components/data-services/org.wso2.carbon.dataservices.core/src/main/java/org/wso2/carbon/dataservices/core/odata/RDBMSDataHandler.java:1326-1345 | on success every listed table has its published columns, its foreign keys grouped by importing table and its primary keys, and every published column has a JDBC type. On failure some listed table's columns failed to read |
| RdbmsHandler.RdbmsHandler.IsAvailableAutoIncrementColumns | components/data-services/org.wso2.carbon.dataservices.core/src/main/java/org/wso2/carbon/dataservices/core/odata/RDBMSDataHandler.java:717-724 | true exactly when some published column of the table is auto-increment; an unread table dereferences null |
| RdbmsHandler.RdbmsHandler.ReadTable | components/data-services/org.wso2.carbon.dataservices.core/src/main/java/org/wso2/carbon/dataservices/core/odata/RDBMSDataHandler.java:446-496 | the dialect's page query, as written, over `Select * from` the schema-prefixed table. It reads `$top` rows or the configured maximum, from `$skip` or 0, with the filter and order clauses |
| RdbmsHandler.RdbmsHandler.CountRecords | components/data-services/org.wso2.carbon.dataservices.core/src/main/java/org/wso2/carbon/dataservices/core/odata/RDBMSDataHandler.java:600-636 | with `$count=true`: the count query over the filtered, schema-prefixed table and the last row's total (0 for none). With `$count=false`: 0 and no query |
| RdbmsHandler.RdbmsHandler.EntitiesFromRows | components/data-services/org.wso2.carbon.dataservices.core/src/main/java/org/wso2/carbon/dataservices/core/odata/RDBMSDataHandler.java:1072-1093 | one entity per row, in row order; a table without a type map fails only when a row comes back |
| RdbmsHandler.RdbmsHandler.InsertEntityToTable | components/data-services/org.wso2.carbon.dataservices.core/src/main/java/org/wso2/carbon/dataservices/core/odata/RDBMSDataHandler.java:661-715 | the INSERT over the entry's table columns, bound at positions 1, 2, .... Generated keys are asked for exactly when the table has an auto-increment column |
| RdbmsHandler.RdbmsHandler.ReadTableWithKeys | components/data-services/org.wso2.carbon.dataservices.core/src/main/java/org/wso2/carbon/dataservices/core/odata/RDBMSDataHandler.java:727-753 | the SELECT by key and the key entry's bindings, for a table with a type map |
| RdbmsHandler.RdbmsHandler.UpdateEntityInTable | components/data-services/org.wso2.carbon.dataservices.core/src/main/java/org/wso2/carbon/dataservices/core/odata/RDBMSDataHandler.java:935-1020 | the UPDATE text with the bindings of the new properties, or their fault. Keys come from the new properties, or from the old ones in the transactional form |
| RdbmsHandler.RdbmsHandler.DeleteEntityInTable | components/data-services/org.wso2.carbon.dataservices.core/src/main/java/org/wso2/carbon/dataservices/core/odata/RDBMSDataHandler.java:1023-1052 | as written: a table missing from the key or type map is a null dereference. Otherwise the DELETE lists every primary key in key order, but binds the typed key columns in column-map order. The two orders agree, and the bindings are the corrected ones, when the key list follows the column map |
| CqlTypes.GetDataType | components/data-services/org.wso2.carbon.dataservices.core/src/main/java/org/wso2/carbon/dataservices/core/odata/CassandraDataHandler.java:666-719 | a CQL type is published as GUID exactly when it is UUID, and no type is published as INT16 or SINGLE |
| CqlTypes.ConvertValue | components/data-services/org.wso2.carbon.dataservices.core/src/main/java/org/wso2/carbon/dataservices/core/odata/CassandraDataHandler.java:609-660 | the switch binds null exactly for a null value |
| CqlTypes.BindingAgreesWithPublishedType | components/data-services/org.wso2.carbon.dataservices.core/src/main/java/org/wso2/carbon/dataservices/core/odata/CassandraDataHandler.java:609-719 | a column published as STRING is bound as its text, a GUID column through the UUID parser, an INT32 column as an int |
| CqlTypes.TypeOfColumn | components/data-services/org.wso2.carbon.dataservices.core/src/main/java/org/wso2/carbon/dataservices/core/odata/CassandraDataHandler.java:598-607 | the search loop finds a type exactly for the names the metadata lists, and it is the type of a metadata column of that name |
| CqlTypes.BindParam | components/data-services/org.wso2.carbon.dataservices.core/src/main/java/org/wso2/carbon/dataservices/core/odata/CassandraDataHandler.java:595-664 | `bindParams` appends the converted value when the column has metadata, and faults with the missing-type fault otherwise |
| CqlTypes.BoundAllSucceeds | components/data-services/org.wso2.carbon.dataservices.core/src/main/java/org/wso2/carbon/dataservices/core/odata/CassandraDataHandler.java:595-607 | a run of `bindParams` calls succeeds exactly when every parameter's column has metadata |
| CqlTypes.BoundAllFault | components/data-services/org.wso2.carbon.dataservices.core/src/main/java/org/wso2/carbon/dataservices/core/odata/CassandraDataHandler.java:604-607 | a failing run faults for the first parameter whose column has no metadata |
| CqlTypes.BoundAllValues | components/data-services/org.wso2.carbon.dataservices.core/src/main/java/org/wso2/carbon/dataservices/core/odata/CassandraDataHandler.java:595-660 | a successful run appends one converted value per parameter, after the values already bound |
| CqlTypes.BindColumns | components/data-services/org.wso2.carbon.dataservices.core/src/main/java/org/wso2/carbon/dataservices/core/odata/CassandraDataHandler.java:347-351 | the `for`/`if`/`bindParams` loop binds the parameters of the kept names, in order |
| CqlQuery.SelectItemsCover | components/data-services/org.wso2.carbon.dataservices.core/src/main/java/org/wso2/carbon/dataservices/core/odata/CassandraDataHandler.java:178-196 | the select list starts with every primary key in key order. It then holds only non-key columns, and it covers exactly the keys and the listed columns |
| CqlQuery.SelectClause | components/data-services/org.wso2.carbon.dataservices.core/src/main/java/org/wso2/carbon/dataservices/core/odata/CassandraDataHandler.java:160-198 | `*` without `$select` or when the text holds `*`; a text that splits into no columns (only commas) is a bad request, "No columns specified in the $select option. "; otherwise a table without a primary-key list dereferences null |
| CqlQuery.BuildSelectList | components/data-services/org.wso2.carbon.dataservices.core/src/main/java/org/wso2/carbon/dataservices/core/odata/CassandraDataHandler.java:178-197 | the two select loops and the cut-off comma yield the quoted items joined by commas |
| CqlQuery.SplitEmptyIffOnlyCommas | components/data-services/org.wso2.carbon.dataservices.core/src/main/java/org/wso2/carbon/dataservices/core/odata/CassandraDataHandler.java:170-174 | `split(",")` yields no column exactly when the text is non-empty and all commas |
| CqlQuery.LimitAsWritten | components/data-services/org.wso2.carbon.dataservices.core/src/main/java/org/wso2/carbon/dataservices/core/odata/CassandraDataHandler.java:206-213 | as written: an `int` sum, equal to $top + $skip whenever that fits in 32 bits |
| CqlQuery.LimitAsWrittenOverflows | components/data-services/org.wso2.carbon.dataservices.core/src/main/java/org/wso2/carbon/dataservices/core/odata/CassandraDataHandler.java:208-209 | when $top + $skip passes Integer.MAX_VALUE the written limit is negative |
| CqlQuery.LimitAsWrittenExample | components/data-services/org.wso2.carbon.dataservices.core/src/main/java/org/wso2/carbon/dataservices/core/odata/CassandraDataHandler.java:209 | `$top=2147483647&$skip=1` gives `LIMIT -2147483648` |
| CqlQuery.Limit | components/data-services/org.wso2.carbon.dataservices.core/src/main/java/org/wso2/carbon/dataservices/core/odata/CassandraDataHandler.java:206-213 | corrected: the sum held within the `int` range, never below $top, never negative for non-negative inputs |
| CqlQuery.LimitAgrees | components/data-services/org.wso2.carbon.dataservices.core/src/main/java/org/wso2/carbon/dataservices/core/odata/CassandraDataHandler.java:206-213 | where the written sum does not overflow, the corrected limit agrees with it |
| CqlQuery.WhereClause | components/data-services/org.wso2.carbon.dataservices.core/src/main/java/org/wso2/carbon/dataservices/core/odata/CassandraDataHandler.java:200-205 | nothing without `$filter`, ` WHERE ` + the rendered condition otherwise, and the visitor's fault when it fails |
| CqlQuery.LimitClause | components/data-services/org.wso2.carbon.dataservices.core/src/main/java/org/wso2/carbon/dataservices/core/odata/CassandraDataHandler.java:206-216 | the LIMIT faults exactly when `$top` comes with `$orderby` or `$count`, and is empty without `$top`. The value is `$top + $skip` in `int` arithmetic, wrapping around past Integer.MAX_VALUE |
| CqlQuery.ExpandRejected | components/data-services/org.wso2.carbon.dataservices.core/src/main/java/org/wso2/carbon/dataservices/core/odata/CassandraDataHandler.java:156-159 | a present `$expand` fails with BAD_REQUEST whatever else the request holds |
| CqlQuery.TopOnlyWithoutOrderOrCount | components/data-services/org.wso2.carbon.dataservices.core/src/main/java/org/wso2/carbon/dataservices/core/odata/CassandraDataHandler.java:206-216 | `$top` with `$orderby` or `$count` fails the read; alone it reaches the query |
| CqlQuery.QueryParts | components/data-services/org.wso2.carbon.dataservices.core/src/main/java/org/wso2/carbon/dataservices/core/odata/CassandraDataHandler.java:145-222 | a query is produced exactly when `$expand` is absent and every part is produced, and it is then the text of those parts |
| CqlQuery.QueryTextShape | components/data-services/org.wso2.carbon.dataservices.core/src/main/java/org/wso2/carbon/dataservices/core/odata/CassandraDataHandler.java:199-220 | a query text starts with `SELECT` + select list + ` FROM `, has the limit right before the end and `ALLOW FILTERING` after a filter, and ends with `;` |
| CqlQuery.QueryShape | components/data-services/org.wso2.carbon.dataservices.core/src/main/java/org/wso2/carbon/dataservices/core/odata/CassandraDataHandler.java:145-222 | a generated query starts with `SELECT` and ends with `;`. A `$filter` ends it with ` ALLOW FILTERING;`. A `$top` puts ` LIMIT ` and the wrapped `int` sum right before that end, which is `$top + $skip` itself whenever the sum fits in an `int` |
| CqlQuery.QuerySelectsKeysFirst | components/data-services/org.wso2.carbon.dataservices.core/src/main/java/org/wso2/carbon/dataservices/core/odata/CassandraDataHandler.java:160-199 | with a column list in `$select` the query reads the key columns first, then the listed non-key columns, each quoted |
| CqlStatements.AppendConditions | components/data-services/org.wso2.carbon.dataservices.core/src/main/java/org/wso2/carbon/dataservices/core/odata/CassandraDataHandler.java:733-752 | the `propertyMatch` loop appends a `column = ?` condition for every kept name, separated by the separator |
| CqlStatements.CreateInsertCql | components/data-services/org.wso2.carbon.dataservices.core/src/main/java/org/wso2/carbon/dataservices/core/odata/CassandraDataHandler.java:809-835 | the builder loops yield the INSERT over the table columns the entry holds non-null, in metadata order, with as many placeholders |
| CqlStatements.InsertPlaceholders | components/data-services/org.wso2.carbon.dataservices.core/src/main/java/org/wso2/carbon/dataservices/core/odata/CassandraDataHandler.java:809-835 | the INSERT holds one `?` per present column |
| CqlStatements.InsertAligned | components/data-services/org.wso2.carbon.dataservices.core/src/main/java/org/wso2/carbon/dataservices/core/odata/CassandraDataHandler.java:269-275 | insert binds exactly the present columns, in the INSERT's order |
| CqlStatements.CreateUpdateCql | components/data-services/org.wso2.carbon.dataservices.core/src/main/java/org/wso2/carbon/dataservices/core/odata/CassandraDataHandler.java:728-754 | the builder loops yield SET for every non-key name of the new properties and WHERE for every primary key, in key order |
| CqlStatements.UpdatePlaceholders | components/data-services/org.wso2.carbon.dataservices.core/src/main/java/org/wso2/carbon/dataservices/core/odata/CassandraDataHandler.java:728-754 | the UPDATE holds one `?` per SET column and one per key |
| CqlStatements.UpdateAligned | components/data-services/org.wso2.carbon.dataservices.core/src/main/java/org/wso2/carbon/dataservices/core/odata/CassandraDataHandler.java:346-356 | the update binds its placeholder columns in order when every new non-key name is a table column and the new properties list the keys in key order |
| CqlStatements.CreateUpdateTransactionalCql | components/data-services/org.wso2.carbon.dataservices.core/src/main/java/org/wso2/carbon/dataservices/core/odata/CassandraDataHandler.java:764-801 | the conditional update adds an IF condition for every non-key name of the old properties |
| CqlStatements.UpdateTransactionalPlaceholders | components/data-services/org.wso2.carbon.dataservices.core/src/main/java/org/wso2/carbon/dataservices/core/odata/CassandraDataHandler.java:764-801 | it holds one `?` per SET, WHERE and IF column |
| CqlStatements.UpdateTransactionalAligned | components/data-services/org.wso2.carbon.dataservices.core/src/main/java/org/wso2/carbon/dataservices/core/odata/CassandraDataHandler.java:372-387 | its bindings line up with its placeholders when every new non-key name is a column and the old properties list the keys in key order |
| CqlStatements.CreateReadWithKeysCql | components/data-services/org.wso2.carbon.dataservices.core/src/main/java/org/wso2/carbon/dataservices/core/odata/CassandraDataHandler.java:844-858 | the builder loop yields a condition for every table column the keys entry holds non-null, in metadata order |
| CqlStatements.ReadWithKeysPlaceholders | components/data-services/org.wso2.carbon.dataservices.core/src/main/java/org/wso2/carbon/dataservices/core/odata/CassandraDataHandler.java:844-858 | the keyed SELECT holds one `?` per such column |
| CqlStatements.ReadWithKeysAligned | components/data-services/org.wso2.carbon.dataservices.core/src/main/java/org/wso2/carbon/dataservices/core/odata/CassandraDataHandler.java:230-235 | the keyed read binds its placeholder columns in order when the keys entry holds exactly its non-null key columns in column order |
| CqlStatements.CreateDeleteCql | components/data-services/org.wso2.carbon.dataservices.core/src/main/java/org/wso2/carbon/dataservices/core/odata/CassandraDataHandler.java:866-879 | the builder loop yields a condition for every primary key, in key order |
| CqlStatements.DeletePlaceholders | components/data-services/org.wso2.carbon.dataservices.core/src/main/java/org/wso2/carbon/dataservices/core/odata/CassandraDataHandler.java:866-879 | the DELETE holds one `?` per primary key |
| CqlStatements.DeleteAligned | components/data-services/org.wso2.carbon.dataservices.core/src/main/java/org/wso2/carbon/dataservices/core/odata/CassandraDataHandler.java:300-305 | the plain delete binds its placeholder columns exactly when the entry lists the keys in key order. When the entry holds every key, the text is `DELETE FROM` the table `WHERE` one `key = ?` per bound column |
| CqlStatements.CreateDeleteTransactionalCql | components/data-services/org.wso2.carbon.dataservices.core/src/main/java/org/wso2/carbon/dataservices/core/odata/CassandraDataHandler.java:887-913 | the conditional delete: WHERE over the entry's key names and IF over its other names, both in entry order |
| CqlStatements.DeleteTransactionalPlaceholders | components/data-services/org.wso2.carbon.dataservices.core/src/main/java/org/wso2/carbon/dataservices/core/odata/CassandraDataHandler.java:887-913 | it holds one `?` per name of the entry |
| CqlStatements.DeleteTransactionalAligned | components/data-services/org.wso2.carbon.dataservices.core/src/main/java/org/wso2/carbon/dataservices/core/odata/CassandraDataHandler.java:320-330 | it binds the keys first, then the other names, matching its placeholder order for every entry. The text is the key conditions, then ` IF ` and the other conditions, and the bound columns are exactly the entry's names, counted with repeats |
| StatementCache.Put | components/data-services/org.wso2.carbon.dataservices.core/src/main/java/org/wso2/carbon/dataservices/core/odata/CassandraDataHandler.java:109-119 | after a put the cache stays consistent and holds at most 10000 entries. The new query is the newest, and only the eldest entry of a full cache is evicted |
| StatementCache.PutKeepsRecent | components/data-services/org.wso2.carbon.dataservices.core/src/main/java/org/wso2/carbon/dataservices/core/odata/CassandraDataHandler.java:114-117 | any entry but the eldest survives a put and moves down one place when the cache was full |
| StatementCache.PreparedStatementCache.constructor | components/data-services/org.wso2.carbon.dataservices.core/src/main/java/org/wso2/carbon/dataservices/core/odata/CassandraDataHandler.java:109-119 | the cache starts empty and nothing has been prepared |
| StatementCache.PreparedStatementCache.GetOrPrepare | components/data-services/org.wso2.carbon.dataservices.core/src/main/java/org/wso2/carbon/dataservices/core/odata/CassandraDataHandler.java:236-240 | a cached query is reused with no preparation and no change; a missing one is prepared once and put |
| CassandraHandler.ClusterTable | components/data-services/org.wso2.carbon.dataservices.core/src/main/java/org/wso2/carbon/dataservices/core/odata/CassandraDataHandler.java:226-227 | a table is found exactly when the keyspace lists it, and carries that name |
| CassandraHandler.PublishedColumns | components/data-services/org.wso2.carbon.dataservices.core/src/main/java/org/wso2/carbon/dataservices/core/odata/CassandraDataHandler.java:578-588 | one column per metadata column, with its published type, nullable exactly when it is not a primary key |
| CassandraHandler.ColumnNamesOf | components/data-services/org.wso2.carbon.dataservices.core/src/main/java/org/wso2/carbon/dataservices/core/odata/CassandraDataHandler.java:578-589 | the published columns carry the metadata column names, in order |
| CassandraHandler.KeysOf | components/data-services/org.wso2.carbon.dataservices.core/src/main/java/org/wso2/carbon/dataservices/core/odata/CassandraDataHandler.java:561-572 | the primary-key map covers exactly the listed tables, each with its keyspace key list |
| CassandraHandler.MetaOf | components/data-services/org.wso2.carbon.dataservices.core/src/main/java/org/wso2/carbon/dataservices/core/odata/CassandraDataHandler.java:574-593 | the metadata map covers exactly the listed tables, each with its published columns |
| CassandraHandler.ListedTablesFound | components/data-services/org.wso2.carbon.dataservices.core/src/main/java/org/wso2/carbon/dataservices/core/odata/CassandraDataHandler.java:552-559 | every table the keyspace lists can be looked up |
| CassandraHandler.ColumnOf | components/data-services/org.wso2.carbon.dataservices.core/src/main/java/org/wso2/carbon/dataservices/core/odata/CassandraDataHandler.java:262 | the column looked up has the asked name, and is missing exactly when no column has it |
| CassandraHandler.FillKey | components/data-services/org.wso2.carbon.dataservices.core/src/main/java/org/wso2/carbon/dataservices/core/odata/CassandraDataHandler.java:261-266 | filling one key faults exactly when the key is not a column of the table |
| CassandraHandler.FilledKeysValues | components/data-services/org.wso2.carbon.dataservices.core/src/main/java/org/wso2/carbon/dataservices/core/odata/CassandraDataHandler.java:261-267 | filling succeeds exactly when every key is a table column. Then each GUID key left null holds a fresh UUID, and every other value is the entity's |
| CassandraHandler.FillKeys | components/data-services/org.wso2.carbon.dataservices.core/src/main/java/org/wso2/carbon/dataservices/core/odata/CassandraDataHandler.java:261-267 | the key loop computes that filling |
| CassandraHandler.TableList | components/data-services/org.wso2.carbon.dataservices.core/src/main/java/org/wso2/carbon/dataservices/core/odata/CassandraDataHandler.java:552-559 | `generateTableList` lists the keyspace's tables in metadata order |
| CassandraHandler.PrimaryKeyList | components/data-services/org.wso2.carbon.dataservices.core/src/main/java/org/wso2/carbon/dataservices/core/odata/CassandraDataHandler.java:561-572 | `generatePrimaryKeyList` builds the primary-key map of the listed tables |
| CassandraHandler.TableColumns | components/data-services/org.wso2.carbon.dataservices.core/src/main/java/org/wso2/carbon/dataservices/core/odata/CassandraDataHandler.java:578-589 | the inner loop of `generateMetaData` builds one table's published columns |
| CassandraHandler.MetaData | components/data-services/org.wso2.carbon.dataservices.core/src/main/java/org/wso2/carbon/dataservices/core/odata/CassandraDataHandler.java:574-593 | `generateMetaData` builds the metadata map of the listed tables |
| CassandraHandler.BoundLength | components/data-services/org.wso2.carbon.dataservices.core/src/main/java/org/wso2/carbon/dataservices/core/odata/CassandraDataHandler.java:595-664 | a successful run of `bindParams` binds one value per parameter |
| CassandraHandler.ReferenceChange | components/data-services/org.wso2.carbon.dataservices.core/src/main/java/org/wso2/carbon/dataservices/core/odata/CassandraDataHandler.java:436-445 | `updateReference` and `deleteReference` always fail with a service fault |
| CassandraHandler.CassandraHandler.constructor | components/data-services/org.wso2.carbon.dataservices.core/src/main/java/org/wso2/carbon/dataservices/core/odata/CassandraDataHandler.java:121-128 | builds the table list, key map and metadata map from the keyspace. The transaction flag starts clear and the statement cache empty |
| CassandraHandler.CassandraHandler.KnownTables | components/data-services/org.wso2.carbon.dataservices.core/src/main/java/org/wso2/carbon/dataservices/core/odata/CassandraDataHandler.java:121-128 | a table has keys and columns recorded exactly when the keyspace holds it, and they are the keyspace's |
| CassandraHandler.CassandraHandler.GenerateCassandraQuery | components/data-services/org.wso2.carbon.dataservices.core/src/main/java/org/wso2/carbon/dataservices/core/odata/CassandraDataHandler.java:145-222 | the step-by-step builder returns the query specified by the query parts, or their fault |
| CassandraHandler.CassandraHandler.ReadTableWithKeys | components/data-services/org.wso2.carbon.dataservices.core/src/main/java/org/wso2/carbon/dataservices/core/odata/CassandraDataHandler.java:225-241 | succeeds exactly when the keyed-read plan does. Then it issues the planned SELECT and values through the cache; a failure leaves the cache unchanged |
| CassandraHandler.CassandraHandler.InsertEntityToTable | components/data-services/org.wso2.carbon.dataservices.core/src/main/java/org/wso2/carbon/dataservices/core/odata/CassandraDataHandler.java:258-284 | issues the planned INSERT through the cache and returns the entity with its generated keys and ETag; a failure leaves the cache unchanged |
| CassandraHandler.CassandraHandler.UpdateEntityInTable | components/data-services/org.wso2.carbon.dataservices.core/src/main/java/org/wso2/carbon/dataservices/core/odata/CassandraDataHandler.java:341-364 | issues the planned UPDATE through the cache, or fails with the plan's fault leaving the cache unchanged |
| CassandraHandler.CassandraHandler.UpdateEntityInTableTransactional | components/data-services/org.wso2.carbon.dataservices.core/src/main/java/org/wso2/carbon/dataservices/core/odata/CassandraDataHandler.java:366-395 | the same for the conditional UPDATE |
| CassandraHandler.CassandraHandler.DeleteEntityInTable | components/data-services/org.wso2.carbon.dataservices.core/src/main/java/org/wso2/carbon/dataservices/core/odata/CassandraDataHandler.java:287-293 | the conditional delete exactly when the transaction flag is set, the plain one otherwise |
| CassandraHandler.CassandraHandler.DeleteEntityTableNonTransactional | components/data-services/org.wso2.carbon.dataservices.core/src/main/java/org/wso2/carbon/dataservices/core/odata/CassandraDataHandler.java:295-313 | issues the planned plain DELETE through the cache, or fails leaving it unchanged |
| CassandraHandler.CassandraHandler.DeleteEntityInTableTransactional | components/data-services/org.wso2.carbon.dataservices.core/src/main/java/org/wso2/carbon/dataservices/core/odata/CassandraDataHandler.java:315-338 | issues the planned conditional DELETE through the cache, or fails leaving it unchanged |
| CassandraHandler.CassandraHandler.UnknownTableFaults | components/data-services/org.wso2.carbon.dataservices.core/src/main/java/org/wso2/carbon/dataservices/core/odata/CassandraDataHandler.java:226-228 | every read and write on a table the keyspace does not hold fails with a null dereference |
| CassandraHandler.CassandraHandler.InsertedEntity | components/data-services/org.wso2.carbon.dataservices.core/src/main/java/org/wso2/carbon/dataservices/core/odata/CassandraDataHandler.java:261-282 | the inserted entity keeps the caller's values, except that GUID keys left null hold generated UUIDs |
| CassandraHandler.CassandraHandler.InsertKeysFault | components/data-services/org.wso2.carbon.dataservices.core/src/main/java/org/wso2/carbon/dataservices/core/odata/CassandraDataHandler.java:261-263 | an insert fails on its keys exactly when a primary key is not a column of the table |
| CassandraHandler.CassandraHandler.InsertPlanPlaceholders | components/data-services/org.wso2.carbon.dataservices.core/src/main/java/org/wso2/carbon/dataservices/core/odata/CassandraDataHandler.java:268-275 | the insert binds exactly as many values as its statement has placeholders |
| CassandraHandler.CassandraHandler.UpdatePlanPlaceholders | components/data-services/org.wso2.carbon.dataservices.core/src/main/java/org/wso2/carbon/dataservices/core/odata/CassandraDataHandler.java:345-356 | the update binds as many values as placeholders when its names are table columns and it lists the keys in key order |
| CassandraHandler.CassandraHandler.UpdateTransactionalPlanPlaceholders | components/data-services/org.wso2.carbon.dataservices.core/src/main/java/org/wso2/carbon/dataservices/core/odata/CassandraDataHandler.java:371-387 | the conditional update binds as many values as placeholders under the same conditions on the old properties |
| CassandraHandler.CassandraHandler.ReadWithKeysPlanPlaceholders | components/data-services/org.wso2.carbon.dataservices.core/src/main/java/org/wso2/carbon/dataservices/core/odata/CassandraDataHandler.java:229-235 | the keyed read binds as many values as placeholders when the keys entry holds exactly its non-null key columns |
| CassandraHandler.CassandraHandler.DeletePlanPlaceholders | components/data-services/org.wso2.carbon.dataservices.core/src/main/java/org/wso2/carbon/dataservices/core/odata/CassandraDataHandler.java:299-305 | the plain delete binds as many values as placeholders when the entry lists the keys in key order |
| CassandraHandler.CassandraHandler.DeleteTransactionalPlanPlaceholders | components/data-services/org.wso2.carbon.dataservices.core/src/main/java/org/wso2/carbon/dataservices/core/odata/CassandraDataHandler.java:319-330 | the conditional delete binds as many values as placeholders, for every entry |
| CassandraHandler.CassandraHandler.OpenTransaction | components/data-services/org.wso2.carbon.dataservices.core/src/main/java/org/wso2/carbon/dataservices/core/odata/CassandraDataHandler.java:418-421 | sets the transaction flag |
| CassandraHandler.CassandraHandler.CommitTransaction | components/data-services/org.wso2.carbon.dataservices.core/src/main/java/org/wso2/carbon/dataservices/core/odata/CassandraDataHandler.java:424-427 | clears the transaction flag |
| CassandraHandler.CassandraHandler.RollbackTransaction | components/data-services/org.wso2.carbon.dataservices.core/src/main/java/org/wso2/carbon/dataservices/core/odata/CassandraDataHandler.java:430-433 | clears the transaction flag |
| DataServiceAdmin.NumberOfPages | components/data-services/org.wso2.carbon.dataservices.core/src/main/java/org/wso2/carbon/dataservices/core/admin/DataServiceAdmin.java:931-932 | the page count is the least number of 60-item pages that hold the list (0 for an empty list) |
| DataServiceAdmin.ServedPage | components/data-services/org.wso2.carbon.dataservices.core/src/main/java/org/wso2/carbon/dataservices/core/admin/DataServiceAdmin.java:925-935 | a negative page number or Integer.MAX_VALUE serves page 0. An in-range number serves itself, and a number past the end serves the last page |
| DataServiceAdmin.PageContents | components/data-services/org.wso2.carbon.dataservices.core/src/main/java/org/wso2/carbon/dataservices/core/admin/DataServiceAdmin.java:936-941 | a served page holds 1 to 60 items, and they are the source's items from 60 times the served page on |
| DataServiceAdmin.PagesBeforePrefix | components/data-services/org.wso2.carbon.dataservices.core/src/main/java/org/wso2/carbon/dataservices/core/admin/DataServiceAdmin.java:936-941 | the pages before page n are the first 60 n items |
| DataServiceAdmin.PagesCoverSource | components/data-services/org.wso2.carbon.dataservices.core/src/main/java/org/wso2/carbon/dataservices/core/admin/DataServiceAdmin.java:920-945 | the pages, in order, are the whole list: paging loses and repeats nothing |
| DataServiceAdmin.DoPaging | components/data-services/org.wso2.carbon.dataservices.core/src/main/java/org/wso2/carbon/dataservices/core/admin/DataServiceAdmin.java:920-945 | returns the served page. For a non-empty list it records the page count and the page in `pageable`; an empty list is returned as it is and `pageable` is untouched |
| DataServiceAdmin.Pageable.SetNumberOfPages | components/data-services/org.wso2.carbon.dataservices.core/src/main/java/org/wso2/carbon/dataservices/core/admin/DataServiceAdmin.java:942 | sets the page count and nothing else |
| DataServiceAdmin.Pageable.Set | components/data-services/org.wso2.carbon.dataservices.core/src/main/java/org/wso2/carbon/dataservices/core/admin/DataServiceAdmin.java:943 | sets the page and nothing else |
| DataServiceAdmin.GetODataDataType | components/data-services/org.wso2.carbon.dataservices.core/src/main/java/org/wso2/carbon/dataservices/core/admin/DataServiceAdmin.java:533-607 | every JDBC code without a case of its own is STRING, and no code is GUID |
| DataServiceAdmin.SameTypesAsRelationalHandler | components/data-services/org.wso2.carbon.dataservices.core/src/main/java/org/wso2/carbon/dataservices/core/admin/DataServiceAdmin.java:533-607 | the admin copy of the switch agrees with the relational handler's for every code |
| DataServiceAdmin.ShortServiceId | components/data-services/org.wso2.carbon.dataservices.core/src/main/java/org/wso2/carbon/dataservices/core/admin/DataServiceAdmin.java:143-148 | an id without `/` is kept; an id with `/` that splits into something becomes a non-empty segment without `/` |
| DataServiceAdmin.SplitPath | components/data-services/org.wso2.carbon.dataservices.core/src/main/java/org/wso2/carbon/dataservices/core/admin/DataServiceAdmin.java:144 | splitting `h/n` on `/` gives h and n |
| DataServiceAdmin.ShortServiceIdOfPath | components/data-services/org.wso2.carbon.dataservices.core/src/main/java/org/wso2/carbon/dataservices/core/admin/DataServiceAdmin.java:143-148 | the id `h/n` is served from the file of the service n |
| DataServiceAdmin.RepositoryDirectory | components/data-services/org.wso2.carbon.dataservices.core/src/main/java/org/wso2/carbon/dataservices/core/admin/DataServiceAdmin.java:158-161 | the repository path gains a trailing `/` exactly when it lacks one; a missing path stays missing |
| DataServiceAdmin.SaveNamingAsWritten | components/data-services/org.wso2.carbon.dataservices.core/src/main/java/org/wso2/carbon/dataservices/core/admin/DataServiceAdmin.java:213-225 | as written: a name without `/` is saved as it is. The save faults exactly when a name with `/` splits into a single segment |
| DataServiceAdmin.SaveNamingAsWrittenFaults | components/data-services/org.wso2.carbon.dataservices.core/src/main/java/org/wso2/carbon/dataservices/core/admin/DataServiceAdmin.java:213-220 | saving `svc/` faults with an index out of bounds |
| DataServiceAdmin.SaveNaming | components/data-services/org.wso2.carbon.dataservices.core/src/main/java/org/wso2/carbon/dataservices/core/admin/DataServiceAdmin.java:213-225 | corrected: never faults; a name with `/` that splits into something is saved under a non-empty last segment without `/` |
| DataServiceAdmin.SaveNamingAgrees | components/data-services/org.wso2.carbon.dataservices.core/src/main/java/org/wso2/carbon/dataservices/core/admin/DataServiceAdmin.java:213-225 | wherever the written code does not fault, the corrected one gives the same name, hierarchy and contents |
| DataServiceAdmin.SaveNamingOfPath | components/data-services/org.wso2.carbon.dataservices.core/src/main/java/org/wso2/carbon/dataservices/core/admin/DataServiceAdmin.java:213-225 | saving `h/n` saves the service n under hierarchy h, with `h/n` renamed to n in its contents |
| DataServiceAdmin.SaveNamingTrailingSlash | components/data-services/org.wso2.carbon.dataservices.core/src/main/java/org/wso2/carbon/dataservices/core/admin/DataServiceAdmin.java:213-225 | saving `h/` keeps h as the name and the given hierarchy, where the written code faults |
| DataServiceAdmin.SaveNamingKeepsContents | components/data-services/org.wso2.carbon.dataservices.core/src/main/java/org/wso2/carbon/dataservices/core/admin/DataServiceAdmin.java:219 | contents that do not mention the full name are saved unchanged |
| ODataTypes.ValueOf | components/data-services/org.wso2.carbon.dataservices.core/src/main/java/org/wso2/carbon/dataservices/core/odata/RDBMSDataHandler.java:1281 | `valueOf` finds the constant with exactly the given name, and none for any other name |

## Left out

- Executing statements is not modelled: opening connections, `execute`, `executeQuery`, result sets, `wasApplied`, and the update count that `deleteEntityInTable` compares with 0. The model ends at the prepared text and its bound values.
- RDBMS `openTransaction`, `commitTransaction` and `rollbackTransaction`, together with `initializeConnection`, `commitExecution` and `releaseConnection`, handle JDBC connections only and are not modelled.
- `bindValuesToPreparedStatement`, `getValueFromResultSet` and the Cassandra `createDataEntryFromRow` convert values between text and JDBC/CQL types. A binding records its position, column, type code and text value. CqlTypes.ConvertValue tags the value with the conversion chosen, but does not parse it, so a malformed number or date does not fault.
- `ODataEntry`, `NavigationTable`, `NavigationKeys`, `DataColumn`, `DBConstants`, `ODataUtils` and `CassandraUtils` are not part of this model. Their behaviour as used is restated in `entries.dfy`, `rdbms_catalog.dfy` and as parameters.
- The getters (`getTableList`, `getPrimaryKeys`, `getTableMetadata`, `getNavigationProperties`) return fields and are not modelled separately. Cassandra's `countRecords` always returns 0, and its navigation properties are always null.
- The Cassandra transaction flag is a `ThreadLocal<Boolean>`. It is modelled as a field of one handler, so per-thread isolation is not captured.
- The RDBMS constructor's parsing of the OData configuration is not modelled. Reading the `OMElement` text is left out; the parsed table configurations are its input.
- DataServiceAdmin.DoPaging: does not model the 32-bit overflow of `(pageNumber + 1) * 60` and of the slice bounds for lists longer than Integer.MAX_VALUE - 59 items, because `requires |source| <= IntMax` keeps sizes within Java `List` sizes. The `double` ceiling of `size / 60` is taken as the exact integer ceiling, which it is for every `int` size.
- DataServiceAdmin.ShortServiceIdOfPath: stated for a single hierarchy level `h/n`. Deeper paths are covered by ShortServiceId's general contract only.
- DataServiceAdmin.SaveNamingOfPath: stated for a single hierarchy level, like ShortServiceIdOfPath.
- CassandraHandler.CassandraHandler.InsertEntityToTable: does not model that `entity.addValue` fills the generated UUID keys and the ETag into the caller's `ODataEntry` in place. The model returns the filled entry as a new value, so the caller's entry is unchanged, and the UUIDs the Java code leaves in the entity when `bindParams` later throws are not captured.
- Text.ToLower: lower-cases the ASCII letters only, while `String.toLowerCase` also folds other letters by locale. DialectOf (through QueryBasedOnDbType), TableSchemaPattern and AutoIncrementFlag compare lower-cased product names and flags, so a product name or flag spelled with non-ASCII capitals is not matched as the Java code would match it.
- The rest of `DataServiceAdmin` (data source tests, GSpread and Mongo helpers, carbon data sources, the registry access behind `getDataServiceContentAsString`/`saveDataService`) is outside this model. For those two methods only the service-name splitting and the repository path handling are modelled.

## Findings

| source | as written | input that shows it | evidently intended | confidence | as-written member | corrected member |
|---|---|---|---|---|---|---|
| components/data-services/org.wso2.carbon.dataservices.core/src/main/java/org/wso2/carbon/dataservices/core/odata/RDBMSDataHandler.java:555-566 | `queryGeneratorMSSql` trims the order clause and concatenates it directly after the table name or filter | table `T`, no filter, `$orderby=name` | `Select * from T order by name ASC OFFSET ...` with a space before ORDER BY | high, not executed | Pagination.MsSqlGluesOrderClause | Pagination.MsSqlQuery |
| components/data-services/org.wso2.carbon.dataservices.core/src/main/java/org/wso2/carbon/dataservices/core/odata/CassandraDataHandler.java:206-213 | the CQL limit is `$top + $skip` in Java `int` arithmetic | `$top=2147483647&$skip=1` gives `LIMIT -2147483648` | a limit that does not wrap around | high, not executed | CqlQuery.LimitAsWrittenExample | CqlQuery.Limit |
| components/data-services/org.wso2.carbon.dataservices.core/src/main/java/org/wso2/carbon/dataservices/core/admin/DataServiceAdmin.java:213-221 | `saveDataService` indexes `length - 2` of the split name whenever the name holds `/` | service name `svc/` splits into one segment, index -1 | save `svc` with the given hierarchy | high, not executed | DataServiceAdmin.SaveNamingAsWrittenFaults | DataServiceAdmin.SaveNaming |
| components/data-services/org.wso2.carbon.dataservices.core/src/main/java/org/wso2/carbon/dataservices/core/odata/RDBMSDataHandler.java:1023-1040 | `deleteEntityInTable` binds key values in the type map's key order, while `createDeleteSQL` lists `key = ?` in primary-key order | keys `[b, a]`, type map order `[a, b]` | key values bound in the WHERE clause's order | medium (depends on map order), not executed | RdbmsSql.DeleteBindsInColumnMapOrder | RdbmsSql.DeleteBindings |
| components/data-services/org.wso2.carbon.dataservices.core/src/main/java/org/wso2/carbon/dataservices/core/odata/RDBMSDataHandler.java:377-384 | `getForeignKeysValues` exhausts the result set inside the loop over key pairs, so only the first pair gets a value | a two-column foreign key with one matching row | a value for every key column | high, not executed | RdbmsReferences.CompositeKeyLosesColumns | RdbmsReferences.ForeignKeyValues |
| components/data-services/org.wso2.carbon.dataservices.core/src/main/java/org/wso2/carbon/dataservices/core/odata/RDBMSDataHandler.java:319-337 | `deleteReference` nulls the importing table's foreign-key columns but looks up their types in the exporting table | department `id` exported to employee `dept_id` | types looked up in the importing table, whose columns are updated | high, not executed | RdbmsReferences.DeleteReferenceLooksUpWrongTable | RdbmsReferences.DeleteReference |
