/** The pieces of the data service admin service that compute rather than touch the server: the
    paging of listings, its own copy of the JDBC to OData type table, and the splitting of a
    service name that carries its hierarchy ("hierarchy/name") when a service is loaded or
    saved. */
module DataServiceAdmin {
  import opened Common
  import opened Text
  import opened ODataTypes
  import JdbcTypes
  import RdbmsCatalog

  // ---------------------------------------------------------------------------------------
  // Paging

  /** The fixed number of items on a page. */
  const ItemsPerPage: nat := 60

  /** `(int) Math.ceil((double) size / 60)`; the double quotient of an `int` by 60 is close
      enough to exact that its ceiling is the integer ceiling. */
  function NumberOfPages(size: nat): (r: nat)
    ensures (r - 1) * ItemsPerPage < size <= r * ItemsPerPage || (size == 0 && r == 0)
  {
    (size + ItemsPerPage - 1) / ItemsPerPage
  }

  /** The page `doPaging` serves for a non-empty list: a negative page number or
      Integer.MAX_VALUE means the first page, and a number past the end means the last. */
  function ServedPage(pageNumber: int, size: nat): (r: nat)
    requires size > 0
    ensures r < NumberOfPages(size)
    ensures (pageNumber < 0 || pageNumber == IntMax) ==> r == 0
    ensures 0 <= pageNumber < NumberOfPages(size) && pageNumber != IntMax ==> r == pageNumber
    ensures NumberOfPages(size) <= pageNumber && pageNumber != IntMax ==> r == NumberOfPages(size) - 1
  {
    var p := if pageNumber < 0 || pageNumber == IntMax then 0 else pageNumber;
    if p > NumberOfPages(size) - 1 then NumberOfPages(size) - 1 else p
  }

  /** The items `doPaging` returns: the source itself when it is empty, otherwise the served
      page's slice of at most 60 items. */
  function PageOf<T>(pageNumber: int, source: seq<T>): seq<T> {
    if |source| == 0 then source
    else
      var start := ServedPage(pageNumber, |source|) * ItemsPerPage;
      source[start..if start + ItemsPerPage < |source| then start + ItemsPerPage else |source|]
  }

  /** A page of a non-empty list holds between 1 and 60 items, which are the items of the
      source from the served page's first index on, in order. */
  lemma PageContents<T>(pageNumber: int, source: seq<T>)
    requires |source| > 0
    ensures 0 < |PageOf(pageNumber, source)| <= ItemsPerPage
    ensures forall k :: 0 <= k < |PageOf(pageNumber, source)| ==>
      PageOf(pageNumber, source)[k] == source[ServedPage(pageNumber, |source|) * ItemsPerPage + k]
  {
  }

  /** The pages before page `n`, one after the other. */
  function PagesBefore<T>(source: seq<T>, n: nat): seq<T>
    requires n <= NumberOfPages(|source|) && |source| <= IntMax
  {
    if n == 0 then [] else PagesBefore(source, n - 1) + PageOf(n - 1, source)
  }

  /** The pages before page `n` are the first `60 n` items. */
  lemma {:induction false} PagesBeforePrefix<T>(source: seq<T>, n: nat)
    requires n <= NumberOfPages(|source|) && |source| <= IntMax
    ensures PagesBefore(source, n) == source[..if n * ItemsPerPage < |source| then n * ItemsPerPage else |source|]
  {
    if n > 0 {
      PagesBeforePrefix(source, n - 1);
      var a := (n - 1) * ItemsPerPage;
      assert n * ItemsPerPage == a + ItemsPerPage;
      var b := if a + ItemsPerPage < |source| then a + ItemsPerPage else |source|;
      assert a < |source| by {
        var r := NumberOfPages(|source|);
        assert (n - 1) * ItemsPerPage <= (r - 1) * ItemsPerPage;
      }
      assert ServedPage(n - 1, |source|) == n - 1;
      assert PageOf(n - 1, source) == source[a..b];
      assert PagesBefore(source, n - 1) == source[..a];
      PrefixSplit(source, a, b);
    }
  }

  lemma PrefixSplit<T>(s: seq<T>, a: nat, b: nat)
    requires a <= b <= |s|
    ensures s[..a] + s[a..b] == s[..b]
  {
  }

  /** Paging loses and repeats nothing: the pages, in order, are the whole list. */
  lemma PagesCoverSource<T>(source: seq<T>)
    requires |source| <= IntMax
    ensures PagesBefore(source, NumberOfPages(|source|)) == source
  {
    PagesBeforePrefix(source, NumberOfPages(|source|));
  }

  /** A `Pageable` listing: the page count and the items of the page it shows. */
  class Pageable<T> {
    var numberOfPages: int
    var items: seq<T>

    constructor()
      ensures numberOfPages == 0 && items == []
    {
      numberOfPages := 0;
      items := [];
    }

    method SetNumberOfPages(n: int)
      modifies this
      ensures numberOfPages == n && items == old(items)
    {
      numberOfPages := n;
    }

    method Set(page: seq<T>)
      modifies this
      ensures items == page && numberOfPages == old(numberOfPages)
    {
      items := page;
    }
  }

  /** `doPaging`: the page served for `pageNumber`, recorded in `pageable` together with the
      page count; an empty source is returned as it is and leaves `pageable` untouched. */
  method DoPaging<T>(pageNumber: int, source: seq<T>, pageable: Pageable<T>) returns (page: seq<T>)
    requires IsInt32(pageNumber) && |source| <= IntMax
    modifies pageable
    ensures page == PageOf(pageNumber, source)
    ensures |source| == 0 ==> unchanged(pageable)
    ensures |source| > 0 ==> pageable.numberOfPages == NumberOfPages(|source|) && pageable.items == page
  {
    var p := pageNumber;
    if p < 0 || p == IntMax {
      p := 0;
    }
    if |source| == 0 {
      return source;
    }
    var numberOfPages := NumberOfPages(|source|);
    if p > numberOfPages - 1 {
      p := numberOfPages - 1;
    }
    assert p == ServedPage(pageNumber, |source|);
    var startIndex := p * ItemsPerPage;
    var endIndex := (p + 1) * ItemsPerPage;
    page := [];
    var i := startIndex;
    while i < endIndex && i < |source|
      invariant startIndex <= i <= |source| && i <= endIndex
      invariant page == source[startIndex..i]
    {
      page := page + [source[i]];
      i := i + 1;
    }
    pageable.SetNumberOfPages(numberOfPages);
    pageable.Set(page);
  }

  // ---------------------------------------------------------------------------------------
  // JDBC to OData types

  /** The admin service's own `getODataDataType` switch. */
  function GetODataDataType(code: int): (r: ODataDataType)
    ensures code !in RdbmsCatalog.MappedCodes ==> r == STRING
    ensures r != GUID
  {
    if code == JdbcTypes.INTEGER then INT32
    else if code == JdbcTypes.TINYINT then INT16
    else if code == JdbcTypes.SMALLINT then INT16
    else if code == JdbcTypes.DOUBLE then DOUBLE
    else if code == JdbcTypes.VARCHAR then STRING
    else if code == JdbcTypes.CHAR then STRING
    else if code == JdbcTypes.LONGVARCHAR then STRING
    else if code == JdbcTypes.CLOB then STRING
    else if code == JdbcTypes.LONGNVARCHAR then STRING
    else if code == JdbcTypes.NCHAR then STRING
    else if code == JdbcTypes.NVARCHAR then STRING
    else if code == JdbcTypes.NCLOB then STRING
    else if code == JdbcTypes.SQLXML then STRING
    else if code == JdbcTypes.BOOLEAN then BOOLEAN
    else if code == JdbcTypes.BIT then BOOLEAN
    else if code == JdbcTypes.BLOB then BINARY
    else if code == JdbcTypes.BINARY then BINARY
    else if code == JdbcTypes.LONGVARBINARY then BINARY
    else if code == JdbcTypes.VARBINARY then BINARY
    else if code == JdbcTypes.DATE then DATE
    else if code == JdbcTypes.DECIMAL then DECIMAL
    else if code == JdbcTypes.NUMERIC then DECIMAL
    else if code == JdbcTypes.FLOAT then SINGLE
    else if code == JdbcTypes.REAL then SINGLE
    else if code == JdbcTypes.TIME then TIMEOFDAY
    else if code == JdbcTypes.BIGINT then INT64
    else if code == JdbcTypes.TIMESTAMP then DATE_TIMEOFFSET
    else STRING
  }

  /** The admin service publishes every JDBC type as the relational handler does. */
  lemma SameTypesAsRelationalHandler(code: int)
    ensures GetODataDataType(code) == RdbmsCatalog.GetODataDataType(code)
  {
  }

  // ---------------------------------------------------------------------------------------
  // Service names with a hierarchy

  /** The last piece of a split that is not empty. */
  function Last(parts: seq<string>): string
    requires |parts| > 0
  {
    parts[|parts| - 1]
  }

  /** `getDataServiceContentAsString`: a service id holding '/' is reduced to its last
      segment, unless it splits into nothing (it is only slashes). */
  function ShortServiceId(serviceId: string): (r: string)
    ensures '/' !in serviceId ==> r == serviceId
    ensures '/' in serviceId && |JavaSplit(serviceId, '/')| >= 1 ==> '/' !in r && r != ""
  {
    if '/' in serviceId then
      var parts := JavaSplit(serviceId, '/');
      if |parts| >= 1 then Last(parts) else serviceId
    else serviceId
  }

  /** Segmenting "h" + d + "n", for pieces without `d`, gives the two pieces. */
  lemma SegmentsPair(h: string, d: char, n: string)
    requires d !in h && d !in n
    ensures Segments(h + [d] + n, d) == [h, n]
  {
    var s := h + [d] + n;
    assert s[..|h|] == h;
    IndexOfFirst(s, d, |h|);
    assert s[|h| + 1..] == n;
  }

  /** The first `d` in `s` is at a position holding `d` with no `d` before it. */
  lemma {:induction false} IndexOfFirst(s: string, d: char, i: nat)
    requires i < |s| && s[i] == d && d !in s[..i]
    ensures IndexOf(s, d) == i
    decreases i
  {
    if i > 0 {
      assert s[0] in s[..i];
      assert s[1..][..i - 1] == s[..i][1..];
      IndexOfFirst(s[1..], d, i - 1);
    }
  }

  /** Splitting "h/n" on '/', for segments h and n without '/' and a non-empty n, gives h
      and n. */
  lemma SplitPath(h: string, n: string)
    requires '/' !in h && '/' !in n && n != ""
    ensures JavaSplit(h + "/" + n, '/') == [h, n]
  {
    SegmentsPair(h, '/', n);
    var s := h + "/" + n;
    assert s == h + ['/'] + n;
    assert s[|h|] == '/';
  }

  /** A service id "h/n" is served from the file of the service n. */
  lemma ShortServiceIdOfPath(h: string, n: string)
    requires '/' !in h && '/' !in n && n != ""
    ensures ShortServiceId(h + "/" + n) == n
  {
    SplitPath(h, n);
    assert (h + "/" + n)[|h|] == '/';
  }

  /** `getDataServiceContentAsString`: the repository path gains a trailing '/' when it lacks
      one; a missing path stays missing. */
  function RepositoryDirectory(path: Option<string>): (r: Option<string>)
    ensures r.None? <==> path.None?
    ensures r.Some? ==> EndsWith(r.value, "/")
    ensures r.Some? && EndsWith(path.value, "/") ==> r.value == path.value
    ensures r.Some? && !EndsWith(path.value, "/") ==> r.value == path.value + "/"
  {
    match path
    case None => None
    case Some(p) => if EndsWith(p, "/") then Some(p) else Some(p + "/")
  }

  /** Name, hierarchy and contents of a service as `saveDataService` stores it. */
  datatype Naming = Naming(name: string, hierarchy: string, contents: string)

  const IndexOutOfBounds: Fault := RuntimeFault("ArrayIndexOutOfBoundsException")

  /** `saveDataService`'s splitting as written: for a name holding '/', the last segment is
      the name and the one before it the hierarchy, and the full name is replaced by the short
      one in the contents; a missing hierarchy becomes "". A split into a single segment has
      no segment before the last and faults. */
  function SaveNamingAsWritten(serviceName: string, serviceHierarchy: Option<string>, serviceContents: string)
    : (r: Result<Naming>)
    ensures '/' !in serviceName ==> r == Ok(Naming(serviceName, serviceHierarchy.GetOr(""), serviceContents))
    ensures r.Err? <==> '/' in serviceName && |JavaSplit(serviceName, '/')| == 1
  {
    if '/' in serviceName then
      var parts := JavaSplit(serviceName, '/');
      if |parts| >= 1 then
        if |parts| < 2 then Err(IndexOutOfBounds)
        else Ok(Naming(Last(parts), parts[|parts| - 2], ReplaceAll(serviceContents, serviceName, Last(parts))))
      else Ok(Naming(serviceName, serviceHierarchy.GetOr(""), serviceContents))
    else Ok(Naming(serviceName, serviceHierarchy.GetOr(""), serviceContents))
  }

  /** A name that ends in '/' after a single segment, such as "svc/", makes the save fault. */
  lemma SaveNamingAsWrittenFaults()
    ensures SaveNamingAsWritten("svc/", None, "") == Err(IndexOutOfBounds)
  {
    var s := "svc/";
    assert s == "svc" + ['/'] + "";
    assert s[3] == '/';
    SegmentsPair("svc", '/', "");
    assert ["svc", ""][..1] == ["svc"];
    assert JavaSplit(s, '/') == ["svc"];
  }

  /** `saveDataService`'s splitting as evidently intended: a name holding '/' keeps its last
      segment as the name, and takes the segment before it as the hierarchy when there is one
      (otherwise the given hierarchy stays); it never faults. */
  function SaveNaming(serviceName: string, serviceHierarchy: Option<string>, serviceContents: string): (r: Naming)
    ensures '/' !in serviceName ==> r == Naming(serviceName, serviceHierarchy.GetOr(""), serviceContents)
    ensures '/' in serviceName && |JavaSplit(serviceName, '/')| >= 1 ==> '/' !in r.name && r.name != ""
  {
    if '/' in serviceName then
      var parts := JavaSplit(serviceName, '/');
      if |parts| >= 2 then
        Naming(Last(parts), parts[|parts| - 2], ReplaceAll(serviceContents, serviceName, Last(parts)))
      else if |parts| == 1 then
        Naming(Last(parts), serviceHierarchy.GetOr(""), ReplaceAll(serviceContents, serviceName, Last(parts)))
      else Naming(serviceName, serviceHierarchy.GetOr(""), serviceContents)
    else Naming(serviceName, serviceHierarchy.GetOr(""), serviceContents)
  }

  /** Wherever the code as written does not fault, the corrected splitting agrees with it. */
  lemma SaveNamingAgrees(serviceName: string, serviceHierarchy: Option<string>, serviceContents: string)
    ensures SaveNamingAsWritten(serviceName, serviceHierarchy, serviceContents).Ok? ==>
      SaveNamingAsWritten(serviceName, serviceHierarchy, serviceContents).value
      == SaveNaming(serviceName, serviceHierarchy, serviceContents)
  {
  }

  /** Saving "h/n" for a hierarchy h and a name n without '/': the service is saved as n under
      h, with "h/n" renamed to n in its contents. */
  lemma SaveNamingOfPath(h: string, n: string, serviceHierarchy: Option<string>, serviceContents: string)
    requires '/' !in h && '/' !in n && n != ""
    ensures SaveNaming(h + "/" + n, serviceHierarchy, serviceContents)
            == Naming(n, h, ReplaceAll(serviceContents, h + "/" + n, n))
  {
    SplitPath(h, n);
    assert (h + "/" + n)[|h|] == '/';
  }

  /** Saving "h/" keeps h as the name and the given hierarchy, where the code as written
      faults. */
  lemma SaveNamingTrailingSlash(h: string, serviceHierarchy: Option<string>, serviceContents: string)
    requires '/' !in h && h != ""
    ensures SaveNaming(h + "/", serviceHierarchy, serviceContents)
            == Naming(h, serviceHierarchy.GetOr(""), ReplaceAll(serviceContents, h + "/", h))
  {
    var s := h + "/";
    assert s == h + ['/'] + "";
    assert s[|h|] == '/';
    SegmentsPair(h, '/', "");
    assert Segments(s, '/') == [h, ""];
    assert DropTrailingEmpty([h, ""]) == DropTrailingEmpty([h]) by {
      assert [h, ""][..1] == [h];
    }
    assert JavaSplit(s, '/') == [h];
  }

  /** A service whose contents do not mention its full name is saved with its contents as
      they are. */
  lemma SaveNamingKeepsContents(serviceName: string, serviceHierarchy: Option<string>, serviceContents: string)
    requires !Contains(serviceContents, serviceName)
    ensures SaveNaming(serviceName, serviceHierarchy, serviceContents).contents == serviceContents
  {
    if '/' in serviceName && |JavaSplit(serviceName, '/')| >= 1 {
      ReplaceAbsent(serviceContents, serviceName, Last(JavaSplit(serviceName, '/')));
    }
  }
}
