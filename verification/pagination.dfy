/** The dialect-specific paging of `readTable` in the relational handler: the product name the
    JDBC driver reports picks one of three generators, each appending the filter, the order
    clause and a limit/offset clause to the `Select * from` head. A `row_count` or `offset` of
    zero means "not requested" and is left out of the clause where the dialect allows it. */
module Pagination {
  import opened Common
  import opened Text

  /** Lower-cased product names the relational handler recognises. */
  const OracleServer: string := "oracle"
  const MsSqlServer: string := "microsoft sql server"
  const MySql: string := "mysql"
  const PostgreSql: string := "postgresql"

  datatype Dialect =
    /** Oracle 12c and later: OFFSET ... ROWS / FETCH ... ROWS ONLY. */
    | Oracle
    /** SQL Server 2012 and later: OFFSET/FETCH, which requires an ORDER BY. */
    | MsSql
    /** MySQL and PostgreSQL: LIMIT / OFFSET. */
    | LimitOffset

  /** The switch of `queryBasedOnDBType` on the lower-cased product name. */
  function DialectOf(dbType: string): (r: Option<Dialect>)
    ensures r == Some(Oracle) <==> dbType == OracleServer
    ensures r == Some(MsSql) <==> dbType == MsSqlServer
    ensures r == Some(LimitOffset) <==> dbType == MySql || dbType == PostgreSql
  {
    if dbType == OracleServer then Some(Oracle)
    else if dbType == MsSqlServer then Some(MsSql)
    else if dbType == PostgreSql || dbType == MySql then Some(LimitOffset)
    else None
  }

  // ---------------------------------------------------------------------------------------
  // Limit clauses and their decoders

  /** The OFFSET/FETCH clause used by Oracle when both are requested, and always by SQL Server. */
  function OffsetFetch(rowCount: int, offset: int): string {
    " OFFSET " + IntToString(offset) + (" ROWS FETCH NEXT " + IntToString(rowCount) + " ROWS ONLY ")
  }

  /** Oracle: FETCH FIRST for a row count alone, OFFSET alone for an offset alone. */
  function OracleLimit(rowCount: int, offset: int): (r: string)
    ensures r == "" <==> rowCount == 0 && offset == 0
  {
    if rowCount != 0 then
      if offset != 0 then OffsetFetch(rowCount, offset)
      else " FETCH FIRST " + IntToString(rowCount) + " ROWS ONLY "
    else if offset != 0 then " OFFSET " + IntToString(offset) + " ROWS"
    else ""
  }

  /** MySQL and PostgreSQL: `limit n`, followed by `offset m` when there is one. */
  function LimitOffsetClause(rowCount: int, offset: int): (r: string)
    ensures r == "" <==> rowCount == 0 && offset == 0
  {
    if rowCount != 0 then
      " limit " + IntToString(rowCount) + (if offset != 0 then " offset " + IntToString(offset) else "")
    else if offset != 0 then " offset " + IntToString(offset)
    else ""
  }

  /** Reads an OFFSET/FETCH clause back as (row count, offset). */
  function ParseOffsetFetch(s: string): Option<(int, int)> {
    match LitThenInt(s, " OFFSET ")
    case None => None
    case Some((o, rest)) =>
      match LitThenInt(rest, " ROWS FETCH NEXT ")
      case None => None
      case Some((n, tail)) => if tail == " ROWS ONLY " then Some((n, o)) else None
  }

  /** Reads an Oracle limit clause back as (row count, offset), zero standing for "absent". */
  function ParseOracleLimit(s: string): Option<(int, int)> {
    if s == "" then Some((0, 0))
    else match LitThenInt(s, " FETCH FIRST ")
      case Some((n, tail)) => if tail == " ROWS ONLY " then Some((n, 0)) else None
      case None =>
        match LitThenInt(s, " OFFSET ")
        case None => None
        case Some((o, rest)) => if rest == " ROWS" then Some((0, o)) else ParseOffsetFetch(s)
  }

  /** Reads a MySQL/PostgreSQL limit clause back as (row count, offset). */
  function ParseLimitOffset(s: string): Option<(int, int)> {
    if s == "" then Some((0, 0))
    else match LitThenInt(s, " limit ")
      case Some((n, rest)) =>
        if rest == "" then Some((n, 0))
        else (match LitThenInt(rest, " offset ")
              case Some((o, tail)) => if tail == "" then Some((n, o)) else None
              case None => None)
      case None =>
        match LitThenInt(s, " offset ")
        case Some((o, tail)) => if tail == "" then Some((0, o)) else None
        case None => None
  }

  lemma OffsetFetchRoundTrip(rowCount: int, offset: int)
    ensures ParseOffsetFetch(OffsetFetch(rowCount, offset)) == Some((rowCount, offset))
  {
    LitThenIntOf(" OFFSET ", offset, " ROWS FETCH NEXT " + IntToString(rowCount) + " ROWS ONLY ");
    LitThenIntOf(" ROWS FETCH NEXT ", rowCount, " ROWS ONLY ");
  }

  /** A text that differs from `lit` at some position inside both does not start with it. */
  lemma NotAfter(s: string, lit: string, i: nat)
    requires i < |lit| && i < |s| && s[i] != lit[i]
    ensures After(s, lit) == None && LitThenInt(s, lit) == None
  {
  }

  /** The Oracle clause determines the requested page: decoding it gives back both numbers. */
  lemma OracleLimitRoundTrip(rowCount: int, offset: int)
    ensures ParseOracleLimit(OracleLimit(rowCount, offset)) == Some((rowCount, offset))
  {
    if rowCount != 0 && offset != 0 {
      OracleBothRoundTrip(rowCount, offset);
    } else if rowCount != 0 {
      LitThenIntOf(" FETCH FIRST ", rowCount, " ROWS ONLY ");
    } else if offset != 0 {
      var s := " OFFSET " + IntToString(offset) + " ROWS";
      NotAfter(s, " FETCH FIRST ", 1);
      LitThenIntOf(" OFFSET ", offset, " ROWS");
    }
  }

  lemma OracleBothRoundTrip(rowCount: int, offset: int)
    requires rowCount != 0 && offset != 0
    ensures ParseOracleLimit(OffsetFetch(rowCount, offset)) == Some((rowCount, offset))
  {
    var s := OffsetFetch(rowCount, offset);
    var tail := " ROWS FETCH NEXT " + IntToString(rowCount) + " ROWS ONLY ";
    NotAfter(s, " FETCH FIRST ", 1);
    LitThenIntOf(" OFFSET ", offset, tail);
    assert |tail| > 5;
    OffsetFetchRoundTrip(rowCount, offset);
  }

  /** The MySQL/PostgreSQL clause determines the requested page. */
  lemma LimitOffsetRoundTrip(rowCount: int, offset: int)
    ensures ParseLimitOffset(LimitOffsetClause(rowCount, offset)) == Some((rowCount, offset))
  {
    var s := LimitOffsetClause(rowCount, offset);
    if rowCount != 0 && offset != 0 {
      var tail := " offset " + IntToString(offset);
      assert s == " limit " + IntToString(rowCount) + tail;
      LitThenIntOf(" limit ", rowCount, tail);
      LitThenIntOf(" offset ", offset, "");
      assert tail == " offset " + IntToString(offset) + "";
    } else if rowCount != 0 {
      assert s == " limit " + IntToString(rowCount) + "";
      LitThenIntOf(" limit ", rowCount, "");
    } else if offset != 0 {
      NotAfter(s, " limit ", 1);
      assert s == " offset " + IntToString(offset) + "";
      LitThenIntOf(" offset ", offset, "");
    }
  }

  // ---------------------------------------------------------------------------------------
  // Whole queries

  /** `query` is `head` followed by a clause that starts with a space, or by nothing. */
  predicate SeparatedAfter(query: string, head: string) {
    head <= query && (|query| == |head| || query[|head|] == ' ')
  }

  /** An order clause as `readTable` builds it: empty, or starting with a space. */
  predicate LeadingSpaceOrEmpty(clause: string) {
    |clause| == 0 || clause[0] == ' '
  }

  /** `queryGeneratorOracle`: head, filter and order clause unchanged, then a clause that
      decodes to the requested page. */
  function OracleQuery(select: string, where: string, rowCount: int, offset: int, orderBy: string): (q: string)
    ensures (select + where + orderBy) <= q
    ensures ParseOracleLimit(q[|select + where + orderBy|..]) == Some((rowCount, offset))
    ensures LeadingSpaceOrEmpty(orderBy) ==> SeparatedAfter(q, select + where)
  {
    OracleLimitRoundTrip(rowCount, offset);
    var q := select + where + orderBy + OracleLimit(rowCount, offset);
    assert q[|select + where + orderBy|..] == OracleLimit(rowCount, offset);
    q
  }

  /** `queryGeneratorSQL`, shared by MySQL and PostgreSQL. */
  function LimitOffsetQuery(select: string, where: string, rowCount: int, offset: int, orderBy: string): (q: string)
    ensures (select + where + orderBy) <= q
    ensures ParseLimitOffset(q[|select + where + orderBy|..]) == Some((rowCount, offset))
    ensures LeadingSpaceOrEmpty(orderBy) ==> SeparatedAfter(q, select + where)
  {
    LimitOffsetRoundTrip(rowCount, offset);
    var q := select + where + orderBy + LimitOffsetClause(rowCount, offset);
    assert q[|select + where + orderBy|..] == LimitOffsetClause(rowCount, offset);
    q
  }

  /** The placeholder order that SQL Server's OFFSET/FETCH needs when none was requested. */
  const DefaultMsSqlOrder: string := " ORDER BY (SELECT 1) "

  /** `queryGeneratorMSSql` as written: the order clause is trimmed, so a requested order
      loses the space that separates it from the table name or the filter. */
  function MsSqlOrderAsWritten(orderBy: string): (r: string)
    ensures Trim(orderBy) == "" ==> r == DefaultMsSqlOrder
    ensures Trim(orderBy) != "" ==> r == Trim(orderBy) && r[0] != ' '
  {
    var trimmed := Trim(orderBy);
    if trimmed == "" then DefaultMsSqlOrder else trimmed
  }

  function MsSqlQueryAsWritten(select: string, where: string, rowCount: int, offset: int, orderBy: string): (q: string)
    ensures (select + where + MsSqlOrderAsWritten(orderBy)) <= q
    ensures ParseOffsetFetch(q[|select + where + MsSqlOrderAsWritten(orderBy)|..]) == Some((rowCount, offset))
  {
    OffsetFetchRoundTrip(rowCount, offset);
    var head := select + where + MsSqlOrderAsWritten(orderBy);
    var q := head + OffsetFetch(rowCount, offset);
    assert q[|head|..] == OffsetFetch(rowCount, offset);
    q
  }

  /** With a requested order and no filter, the as-written SQL Server query runs the table name
      into the ORDER BY keyword: `Select * from Torder by name ASC OFFSET ...`. */
  lemma MsSqlGluesOrderClause()
    ensures MsSqlQueryAsWritten("Select * from T", "", 10, 0, " order by name ASC")
      == "Select * from T" + "order by name ASC" + OffsetFetch(10, 0)
    ensures !SeparatedAfter(MsSqlQueryAsWritten("Select * from T", "", 10, 0, " order by name ASC"), "Select * from T")
  {
    var select := "Select * from T";
    var order := "order by name ASC";
    TrimOrderByName();
    assert MsSqlOrderAsWritten(" order by name ASC") == order;
    assert select + "" == select;
    var q := select + order + OffsetFetch(10, 0);
    assert q[|select|] == order[0];
  }

  lemma TrimOrderByName()
    ensures Trim(" order by name ASC") == "order by name ASC"
  {
    var ob := " order by name ASC";
    assert TrimStart(ob) == ob[1..] by {
      assert ob[1..][0] == 'o';
    }
    assert TrimEnd(ob[1..]) == ob[1..] by {
      assert ob[|ob| - 1] == 'C';
    }
    assert ob[1..] == "order by name ASC";
  }

  /** The order clause the SQL Server generator evidently intends: the default when none was
      requested, and otherwise the trimmed clause set off by one space. */
  function MsSqlOrder(orderBy: string): (r: string)
    ensures Trim(orderBy) == "" ==> r == DefaultMsSqlOrder
    ensures Trim(orderBy) != "" ==> r == " " + Trim(orderBy)
    ensures LeadingSpaceOrEmpty(r) && |r| > 0
  {
    var trimmed := Trim(orderBy);
    if trimmed == "" then DefaultMsSqlOrder else " " + trimmed
  }

  /** The corrected SQL Server generator: always ordered, always separated, and the trailing
      OFFSET/FETCH clause decodes to the requested page. */
  function MsSqlQuery(select: string, where: string, rowCount: int, offset: int, orderBy: string): (q: string)
    ensures (select + where + MsSqlOrder(orderBy)) <= q
    ensures ParseOffsetFetch(q[|select + where + MsSqlOrder(orderBy)|..]) == Some((rowCount, offset))
    ensures SeparatedAfter(q, select + where)
  {
    OffsetFetchRoundTrip(rowCount, offset);
    var head := select + where + MsSqlOrder(orderBy);
    var q := head + OffsetFetch(rowCount, offset);
    assert q[|head|..] == OffsetFetch(rowCount, offset);
    assert q[|select + where|] == MsSqlOrder(orderBy)[0];
    q
  }

  /** `queryBasedOnDBType`: the generator for the reported product, or a fault for any other.
      The query starts with the head and the filter, and its trailing clause decodes to the
      requested page in the product's dialect. Oracle and the LIMIT/OFFSET dialects keep the
      order clause apart from the filter; SQL Server's generator, as written, does not. */
  function QueryBasedOnDbType(productName: string, select: string, where: string, rowCount: int, offset: int, orderBy: string): (r: Result<string>)
    ensures r.Err? <==> DialectOf(ToLower(productName)).None?
    ensures r.Err? ==> r.fault == ServiceFault("DB Type not supported. ")
    ensures r.Ok? ==> select + where <= r.value
    ensures DialectOf(ToLower(productName)) == Some(Oracle) ==>
      select + where + orderBy <= r.value
      && ParseOracleLimit(r.value[|select + where + orderBy|..]) == Some((rowCount, offset))
    ensures DialectOf(ToLower(productName)) == Some(LimitOffset) ==>
      select + where + orderBy <= r.value
      && ParseLimitOffset(r.value[|select + where + orderBy|..]) == Some((rowCount, offset))
    ensures DialectOf(ToLower(productName)) == Some(MsSql) ==>
      select + where + MsSqlOrderAsWritten(orderBy) <= r.value
      && ParseOffsetFetch(r.value[|select + where + MsSqlOrderAsWritten(orderBy)|..]) == Some((rowCount, offset))
    ensures r.Ok? && DialectOf(ToLower(productName)) != Some(MsSql) && LeadingSpaceOrEmpty(orderBy) ==>
      SeparatedAfter(r.value, select + where)
  {
    match DialectOf(ToLower(productName))
    case None => Err(ServiceFault("DB Type not supported. "))
    case Some(Oracle) => Ok(OracleQuery(select, where, rowCount, offset, orderBy))
    case Some(MsSql) => Ok(MsSqlQueryAsWritten(select, where, rowCount, offset, orderBy))
    case Some(LimitOffset) => Ok(LimitOffsetQuery(select, where, rowCount, offset, orderBy))
  }

  /** `queryBasedOnDBType` with the corrected SQL Server generator: every dialect now keeps an
      order clause that starts with a space, or no order clause, apart from the filter. */
  function QueryBasedOnDbTypeCorrected(productName: string, select: string, where: string, rowCount: int, offset: int, orderBy: string): (r: Result<string>)
    ensures r.Err? <==> DialectOf(ToLower(productName)).None?
    ensures r.Err? ==> r.fault == ServiceFault("DB Type not supported. ")
    ensures DialectOf(ToLower(productName)) == Some(MsSql) ==>
      select + where + MsSqlOrder(orderBy) <= r.value
      && ParseOffsetFetch(r.value[|select + where + MsSqlOrder(orderBy)|..]) == Some((rowCount, offset))
    ensures DialectOf(ToLower(productName)) != Some(MsSql) ==>
      r == QueryBasedOnDbType(productName, select, where, rowCount, offset, orderBy)
    ensures r.Ok? && LeadingSpaceOrEmpty(orderBy) ==> SeparatedAfter(r.value, select + where)
  {
    match DialectOf(ToLower(productName))
    case Some(MsSql) => Ok(MsSqlQuery(select, where, rowCount, offset, orderBy))
    case _ => QueryBasedOnDbType(productName, select, where, rowCount, offset, orderBy)
  }
}
