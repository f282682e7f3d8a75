/** The CQL text `generateCassandraQuery` derives from a table name and the OData system query
    options of a read: the `$select` list (primary-key columns first), the `$filter` condition,
    a `LIMIT` of `$top` plus `$skip`, and the options Cassandra cannot serve. */
module CqlQuery {
  import opened Common
  import opened Text
  import opened Clauses

  /** The query options of one request, as far as the query generator looks at them: the raw
      `$select` text, whether `$expand` is present, the `$filter` condition as the filter visitor
      renders it (or the fault the visitor raises), the values of `$top` and `$skip` (Java
      `int`s), and whether `$orderby` and `$count` are present. */
  datatype QueryOptions = QueryOptions(
    select: Option<string>,
    expand: bool,
    filter: Option<Result<string>>,
    top: Option<int>,
    skip: Option<int>,
    orderBy: bool,
    count: bool)

  const ExpandMessage: string := "The OData query option $expand is not supported by Cassandra. "
  const NoColumnsMessage: string := "No columns specified in the $select option. "
  const TopMessage: string :=
    "$top is currently not supported for Cassandra when used together with one of the following: $orderby, $count"

  // ---------------------------------------------------------------------------------------
  // $select

  /** The columns a `$select` list reads: every primary-key column in key order, then the
      listed columns that are not key columns, in the order listed. */
  function SelectItems(pKeys: seq<string>, columns: seq<string>): seq<string> {
    pKeys + Filter(columns, c => c !in pKeys)
  }

  /** The select list always starts with the key columns, covers every listed column, holds
      nothing else, and repeats no key after the key prefix. */
  lemma SelectItemsCover(pKeys: seq<string>, columns: seq<string>)
    ensures SelectItems(pKeys, columns)[..|pKeys|] == pKeys
    ensures forall c :: c in SelectItems(pKeys, columns) <==> c in pKeys || c in columns
    ensures forall k :: |pKeys| <= k < |SelectItems(pKeys, columns)| ==> SelectItems(pKeys, columns)[k] !in pKeys
  {
    var rest := Filter(columns, c => c !in pKeys);
    forall c ensures c in SelectItems(pKeys, columns) <==> c in pKeys || c in columns {
      FilterMembership(columns, c => c !in pKeys, c);
    }
    forall k | |pKeys| <= k < |SelectItems(pKeys, columns)|
      ensures SelectItems(pKeys, columns)[k] !in pKeys
    {
      assert SelectItems(pKeys, columns)[k] == rest[k - |pKeys|];
      FilterMembership(columns, c => c !in pKeys, rest[k - |pKeys|]);
    }
  }

  /** The `$select` part of the query: `*` without a `$select` option or when its text holds a
      `*`; otherwise the quoted select items joined by commas. A `$select` text that splits
      into no columns is a bad request, and a table without a primary-key list is a null
      dereference. */
  function SelectClause(select: Option<string>, pKeys: Option<seq<string>>, quote: string -> string)
    : (r: Result<string>)
    ensures select.None? ==> r == Ok("*")
    ensures select.Some? && '*' in select.value ==> r == Ok("*")
    ensures select.Some? && '*' !in select.value && |JavaSplit(select.value, ',')| == 0
            ==> r == Err(BadRequest(NoColumnsMessage))
    ensures select.Some? && '*' !in select.value && |JavaSplit(select.value, ',')| > 0 && pKeys.None?
            ==> r == Err(NullDereference)
  {
    match select
    case None => Ok("*")
    case Some(text) =>
      if '*' in text then Ok("*")
      else
        var columns := JavaSplit(text, ',');
        if |columns| == 0 then Err(BadRequest(NoColumnsMessage))
        else
          match pKeys
          case None => Err(NullDereference)
          case Some(keys) => Ok(Join(MapSeq(SelectItems(keys, columns), quote), ","))
  }

  /** Each item followed by a comma, the way the select loops append them. */
  function Terminated(items: seq<string>): string {
    if |items| == 0 then "" else Terminated(items[..|items| - 1]) + items[|items| - 1] + ","
  }

  lemma {:induction false} TerminatedIsJoin(items: seq<string>)
    requires |items| > 0
    ensures Terminated(items) == Join(items, ",") + ","
  {
    if |items| > 1 {
      TerminatedIsJoin(items[..|items| - 1]);
    }
  }

  /** The two loops of the select branch: every key column, then every listed column that is not
      a key, each quoted and followed by a comma; the last comma is cut off. */
  method BuildSelectList(pKeys: seq<string>, columns: seq<string>, quote: string -> string)
    returns (select: string)
    requires |columns| > 0
    ensures select == Join(MapSeq(SelectItems(pKeys, columns), quote), ",")
  {
    select := "";
    for i := 0 to |pKeys|
      invariant select == Terminated(MapSeq(pKeys[..i], quote))
    {
      assert MapSeq(pKeys[..i + 1], quote) == MapSeq(pKeys[..i], quote) + [quote(pKeys[i])];
      select := select + quote(pKeys[i]) + ",";
    }
    assert pKeys[..|pKeys|] == pKeys;
    var keys := MapSeq(pKeys, quote);
    assert keys + Select(columns[..0], c => c !in pKeys, quote) == keys;
    for j := 0 to |columns|
      invariant select == Terminated(keys + Select(columns[..j], c => c !in pKeys, quote))
    {
      SelectListStep(keys, columns, j, pKeys, quote);
      if columns[j] !in pKeys {
        select := select + quote(columns[j]) + ",";
      }
    }
    assert columns[..|columns|] == columns;
    SelectListItems(pKeys, columns, quote);
    select := select[..|select| - 1];
  }

  /** One step of the second select loop: a non-key column is appended, a key column skipped. */
  lemma SelectListStep(keys: seq<string>, columns: seq<string>, j: nat, pKeys: seq<string>, quote: string -> string)
    requires j < |columns|
    ensures columns[j] !in pKeys ==>
      keys + Select(columns[..j + 1], c => c !in pKeys, quote)
      == (keys + Select(columns[..j], c => c !in pKeys, quote)) + [quote(columns[j])]
    ensures columns[j] in pKeys ==>
      keys + Select(columns[..j + 1], c => c !in pKeys, quote)
      == keys + Select(columns[..j], c => c !in pKeys, quote)
  {
    assert columns[..j + 1][..j] == columns[..j];
  }

  /** What the loops produce, comma-terminated, is the select list: it is never empty, since a
      listed column is either a key or kept. */
  lemma SelectListItems(pKeys: seq<string>, columns: seq<string>, quote: string -> string)
    requires |columns| > 0
    ensures Terminated(MapSeq(pKeys, quote) + Select(columns, c => c !in pKeys, quote))
            == Join(MapSeq(SelectItems(pKeys, columns), quote), ",") + ","
  {
    var rest := Filter(columns, c => c !in pKeys);
    SelectIsMapOfFilter(columns, c => c !in pKeys, quote);
    MapSeqAppend(pKeys, rest, quote);
    var items := MapSeq(SelectItems(pKeys, columns), quote);
    assert |items| > 0 by {
      if columns[0] !in pKeys {
        FilterMembership(columns, c => c !in pKeys, columns[0]);
      }
    }
    TerminatedIsJoin(items);
  }

  lemma MapSeqAppend<T>(a: seq<T>, b: seq<T>, render: T -> string)
    ensures MapSeq(a + b, render) == MapSeq(a, render) + MapSeq(b, render)
  {
  }

  // ---------------------------------------------------------------------------------------
  // Java's split on a text that holds only delimiters

  lemma {:induction false} SegmentsAllEmpty(s: string, d: char)
    ensures (forall k :: 0 <= k < |Segments(s, d)| ==> Segments(s, d)[k] == "")
            <==> (forall k :: 0 <= k < |s| ==> s[k] == d)
    decreases |s|
  {
    if d in s {
      var i := IndexOf(s, d);
      var tail := s[i + 1..];
      SegmentsAllEmpty(tail, d);
      var parts := Segments(s, d);
      assert parts == [s[..i]] + Segments(tail, d);
      if forall k :: 0 <= k < |s| ==> s[k] == d {
        assert s[0] == d;
        assert i == 0;
        assert forall k :: 0 <= k < |tail| ==> tail[k] == s[i + 1 + k];
      }
      if forall k :: 0 <= k < |parts| ==> parts[k] == "" {
        assert parts[0] == s[..i];
        assert forall k :: 0 <= k < |Segments(tail, d)| ==> Segments(tail, d)[k] == parts[k + 1];
        forall k | 0 <= k < |s| ensures s[k] == d {
          if k > i {
            assert tail[k - i - 1] == s[k];
          }
        }
      }
    } else {
      assert Segments(s, d) == [s];
      if |s| > 0 {
        assert s[0] in s;
        assert s[0] != d;
        assert Segments(s, d)[0] != "";
      }
    }
  }

  /** `text.split(",")` yields no column exactly when the text is non-empty and holds nothing
      but commas. */
  lemma SplitEmptyIffOnlyCommas(s: string)
    ensures |JavaSplit(s, ',')| == 0 <==> |s| > 0 && forall k :: 0 <= k < |s| ==> s[k] == ','
  {
    if ',' in s {
      var parts := Segments(s, ',');
      var kept := DropTrailingEmpty(parts);
      SegmentsAllEmpty(s, ',');
      assert JavaSplit(s, ',') == kept;
      if |kept| > 0 {
        assert parts[|kept| - 1] != "";
        assert !(forall k :: 0 <= k < |s| ==> s[k] == ',');
      } else {
        assert forall k :: 0 <= k < |parts| ==> parts[k] == "";
        assert s[IndexOf(s, ',')] == ',';
      }
    } else if |s| > 0 {
      assert s[0] in s;
    }
  }

  // ---------------------------------------------------------------------------------------
  // $top and $skip

  /** `LIMIT $top + $skip` as written: a Java `int` addition, which wraps around past
      Integer.MAX_VALUE. */
  function LimitAsWritten(top: int, skip: Option<int>): (r: int)
    ensures IsInt32(r)
    ensures IsInt32(top + skip.GetOr(0)) ==> r == top + skip.GetOr(0)
  {
    Wrap32(top + skip.GetOr(0))
  }

  /** A `$top` and `$skip` whose sum passes Integer.MAX_VALUE turn the limit negative. */
  lemma LimitAsWrittenOverflows(top: int, skip: int)
    requires 0 <= top <= IntMax && 0 <= skip <= IntMax
    requires top + skip > IntMax
    ensures LimitAsWritten(top, Some(skip)) == top + skip - 0x1_0000_0000 < 0
  {
  }

  /** The smallest such input: `$top=2147483647&$skip=1` gives `LIMIT -2147483648`. */
  lemma LimitAsWrittenExample()
    ensures LimitAsWritten(IntMax, Some(1)) == IntMin
  {
    LimitAsWrittenOverflows(IntMax, 1);
  }

  /** `LIMIT $top + $skip` with the sum held within the `int` range: the rows to skip plus the
      rows to return, or as many as an `int` can count. */
  function Limit(top: int, skip: Option<int>): (r: int)
    ensures IsInt32(r)
    ensures IsInt32(top + skip.GetOr(0)) ==> r == top + skip.GetOr(0)
    ensures IsInt32(top) && 0 <= skip.GetOr(0) ==> top <= r
    ensures 0 <= top && 0 <= skip.GetOr(0) ==> 0 <= r
  {
    var sum := top + skip.GetOr(0);
    if sum > IntMax then IntMax else if sum < IntMin then IntMin else sum
  }

  /** Where the written limit is correct, the corrected one agrees with it. */
  lemma LimitAgrees(top: int, skip: Option<int>)
    requires IsInt32(top + skip.GetOr(0))
    ensures Limit(top, skip) == LimitAsWritten(top, skip)
  {
  }

  // ---------------------------------------------------------------------------------------
  // The query

  /** The `WHERE` part of the query: nothing without a filter, the rendered condition
      otherwise; a fault of the filter visitor ends the read. */
  function WhereClause(filter: Option<Result<string>>): (r: Result<string>)
    ensures filter.None? ==> r == Ok("")
    ensures filter.Some? && filter.value.Ok? ==> r == Ok(" WHERE " + filter.value.value)
    ensures filter.Some? && filter.value.Err? ==> r == Err(filter.value.fault)
  {
    match filter
    case None => Ok("")
    case Some(w) => (match w case Ok(t) => Ok(" WHERE " + t) case Err(f) => Err(f))
  }

  /** The `LIMIT` part: `$top` plus `$skip` in `int` arithmetic when `$top` comes alone, a fault
      when it comes with `$orderby` or `$count`, nothing without `$top`. */
  function LimitClause(o: QueryOptions): (r: Result<string>)
    ensures r.Err? <==> o.top.Some? && (o.orderBy || o.count)
    ensures r.Err? ==> r.fault == ServiceFault(TopMessage)
    ensures o.top.None? ==> r == Ok("")
  {
    if o.top.Some? && !o.orderBy && !o.count then Ok(" LIMIT " + IntToString(LimitAsWritten(o.top.value, o.skip)))
    else if o.top.Some? then Err(ServiceFault(TopMessage))
    else Ok("")
  }

  /** The text of a query whose parts were all produced. */
  function QueryText(table: string, keyspace: string, select: string, where: string, limit: string,
                     filtered: bool, quote: string -> string): string
  {
    "SELECT " + select + " FROM " + keyspace + "." + quote(table) + where + limit
    + (if filtered then " ALLOW FILTERING" else "") + ";"
  }

  /** `generateCassandraQuery`: `$expand` is refused first; then the select list, the `WHERE`
      condition of `$filter`, a `LIMIT` for `$top` (refused together with `$orderby` or `$count`),
      `ALLOW FILTERING` whenever there is a filter, and the closing semicolon. */
  function CassandraQuery(table: string, keyspace: string, pKeys: Option<seq<string>>,
                          o: QueryOptions, quote: string -> string): Result<string>
  {
    if o.expand then Err(BadRequest(ExpandMessage))
    else
      var select :- SelectClause(o.select, pKeys, quote);
      var where :- WhereClause(o.filter);
      var limit :- LimitClause(o);
      Ok(QueryText(table, keyspace, select, where, limit, o.filter.Some?, quote))
  }

  /** `$expand` is never served, whatever else the request asks. */
  lemma ExpandRejected(table: string, keyspace: string, pKeys: Option<seq<string>>, o: QueryOptions, quote: string -> string)
    requires o.expand
    ensures CassandraQuery(table, keyspace, pKeys, o, quote) == Err(BadRequest(ExpandMessage))
  {
  }

  /** `$top` reaches the query only alone: with `$orderby` or `$count` the read fails. */
  lemma TopOnlyWithoutOrderOrCount(table: string, keyspace: string, pKeys: Option<seq<string>>, o: QueryOptions, quote: string -> string)
    ensures o.top.Some? && (o.orderBy || o.count) ==> CassandraQuery(table, keyspace, pKeys, o, quote).Err?
    ensures !o.expand && SelectClause(o.select, pKeys, quote).Ok? && (o.filter.None? || o.filter.value.Ok?)
            && o.top.Some? && (o.orderBy || o.count)
            ==> CassandraQuery(table, keyspace, pKeys, o, quote) == Err(ServiceFault(TopMessage))
  {
  }

  /** A query is produced exactly when `$expand` is absent and every part is produced, and then
      it is the text of those parts. */
  lemma QueryParts(table: string, keyspace: string, pKeys: Option<seq<string>>, o: QueryOptions, quote: string -> string)
    ensures CassandraQuery(table, keyspace, pKeys, o, quote).Ok?
            <==> !o.expand && SelectClause(o.select, pKeys, quote).Ok? && WhereClause(o.filter).Ok? && LimitClause(o).Ok?
    ensures CassandraQuery(table, keyspace, pKeys, o, quote).Ok? ==>
      CassandraQuery(table, keyspace, pKeys, o, quote).value
      == QueryText(table, keyspace, SelectClause(o.select, pKeys, quote).value, WhereClause(o.filter).value,
                   LimitClause(o).value, o.filter.Some?, quote)
  {
  }

  /** A query text starts with its select list and ends with a semicolon; a limit stands right
      before the end, and a filter ends the query with `ALLOW FILTERING`. */
  lemma QueryTextShape(table: string, keyspace: string, select: string, where: string, limit: string,
                       filtered: bool, quote: string -> string)
    ensures "SELECT " + select + " FROM " <= QueryText(table, keyspace, select, where, limit, filtered, quote)
    ensures EndsWith(QueryText(table, keyspace, select, where, limit, filtered, quote),
                     limit + (if filtered then " ALLOW FILTERING;" else ";"))
  {
    var lead := "SELECT " + select + " FROM ";
    var tail := limit + (if filtered then " ALLOW FILTERING;" else ";");
    var q := QueryText(table, keyspace, select, where, limit, filtered, quote);
    var middle := keyspace + "." + quote(table) + where;
    assert q == lead + middle + tail;
    assert q[..|lead|] == lead;
    assert q[|q| - |tail|..] == tail;
  }

  /** A generated query selects from the quoted table and ends with a semicolon; a `$top` puts
      the limit right before the end, and a `$filter` ends the query with `ALLOW FILTERING`.
      The limit is `$top + $skip` whenever that sum fits in an `int`. */
  lemma QueryShape(table: string, keyspace: string, pKeys: Option<seq<string>>, o: QueryOptions, quote: string -> string)
    requires CassandraQuery(table, keyspace, pKeys, o, quote).Ok?
    ensures var q := CassandraQuery(table, keyspace, pKeys, o, quote).value;
      && "SELECT " <= q
      && EndsWith(q, ";")
      && (o.filter.Some? ==> EndsWith(q, " ALLOW FILTERING;"))
      && (o.top.Some? ==> EndsWith(q, " LIMIT " + IntToString(LimitAsWritten(o.top.value, o.skip))
                                     + (if o.filter.Some? then " ALLOW FILTERING;" else ";")))
      && (o.top.Some? && IsInt32(o.top.value + o.skip.GetOr(0)) ==>
            EndsWith(q, " LIMIT " + IntToString(o.top.value + o.skip.GetOr(0))
                        + (if o.filter.Some? then " ALLOW FILTERING;" else ";")))
  {
    QueryParts(table, keyspace, pKeys, o, quote);
    var select := SelectClause(o.select, pKeys, quote).value;
    var limit := LimitClause(o).value;
    var q := CassandraQuery(table, keyspace, pKeys, o, quote).value;
    QueryTextShape(table, keyspace, select, WhereClause(o.filter).value, limit, o.filter.Some?, quote);
    var tail := if o.filter.Some? then " ALLOW FILTERING;" else ";";
    assert EndsWith(q, limit + tail);
    assert EndsWith(q, tail);
    assert "SELECT " <= "SELECT " + select + " FROM ";
  }

  /** With a column list in `$select`, the query reads the key columns first and then the
      listed non-key columns, each quoted. */
  lemma QuerySelectsKeysFirst(table: string, keyspace: string, keys: seq<string>, o: QueryOptions, quote: string -> string)
    requires CassandraQuery(table, keyspace, Some(keys), o, quote).Ok?
    requires o.select.Some? && '*' !in o.select.value
    ensures "SELECT " + Join(MapSeq(SelectItems(keys, JavaSplit(o.select.value, ',')), quote), ",") + " FROM "
            <= CassandraQuery(table, keyspace, Some(keys), o, quote).value
  {
    QueryParts(table, keyspace, Some(keys), o, quote);
    QueryTextShape(table, keyspace, SelectClause(o.select, Some(keys), quote).value, WhereClause(o.filter).value,
                   LimitClause(o).value, o.filter.Some?, quote);
  }
}
