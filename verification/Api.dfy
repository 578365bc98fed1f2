/** The two read endpoints over `venues`: `GET /api/venues` returns one
    page of matching venues in name order with the total number of
    matches, and `GET /api/venues/summary` returns the number of matching
    venues and the sum of their foot traffic. The table is a parameter;
    opening and closing the database connection is not modelled. */
module Api {
  import opened Wrappers
  import opened Strings
  import opened Store
  import opened Filters

  /** One element of `items`: the eleven selected columns, with a NULL
      foot traffic reported as 0. */
  datatype Item = Item(
    id: int,
    entityId: Option<string>,
    name: Option<string>,
    chainName: Option<string>,
    category: Option<string>,
    dma: Option<string>,
    city: Option<string>,
    state: Option<string>,
    footTraffic: int,
    dateOpened: Option<string>,
    dateClosed: Option<string>)

  datatype ListResponse = ListResponse(page: int, perPage: int, total: int, items: seq<Item>)

  datatype SummaryResponse = SummaryResponse(venues: int, totalFootTraffic: int)

  /** InvalidQuery is the framework's rejection of a `page` or `per_page`
      outside its declared bounds; StoreFailure is an error SQLite raises. */
  datatype ApiError = InvalidQuery | StoreFailure(error: SqlError)

  const MaxPerPage: int := 500

  /** The bounds declared on the query parameters: `page >= 1` and
      `1 <= per_page <= 500`. */
  predicate ValidPaging(page: int, perPage: int) {
    page >= 1 && 1 <= perPage <= MaxPerPage
  }

  /** `x or 0` on a column value. */
  function OrZero(x: Option<int>): int {
    if x.Some? then x.value else 0
  }

  function Project(v: Venue): Item {
    Item(v.id, v.entityId, v.name, v.chainName, v.subCategory, v.dma, v.city, v.stateName,
         OrZero(v.footTraffic), v.dateOpened, v.dateClosed)
  }

  function ProjectAll(rows: seq<Venue>): (items: seq<Item>)
    ensures |items| == |rows|
  {
    seq(|rows|, i requires 0 <= i < |rows| => Project(rows[i]))
  }

  /** The loop that turns fetched rows into response items. */
  method ProjectRows(rows: seq<Venue>) returns (items: seq<Item>)
    ensures items == ProjectAll(rows)
  {
    items := [];
    for i := 0 to |rows|
      invariant |items| == i
      invariant forall k :: 0 <= k < i ==> items[k] == Project(rows[k])
    {
      items := items + [Project(rows[i])];
    }
  }

  // ---------------------------------------------------------------------
  // GET /api/venues
  // ---------------------------------------------------------------------

  /** The rows the list endpoint selects, in scan order. */
  function ListSelected(table: seq<Venue>, f: FilterArgs): seq<Venue> {
    Filter(table, v => ListWants(f, v))
  }

  /** All matching rows in the order the page query returns them. */
  function ListMatches(table: seq<Venue>, f: FilterArgs): seq<Venue> {
    SortByName(ListSelected(table, f))
  }

  /** The rows of page `page`: `per_page` rows from offset
      `(page - 1) * per_page`. */
  function PageRows(xs: seq<Venue>, page: int, perPage: int): seq<Venue> {
    LimitOffset(xs, perPage, (page - 1) * perPage)
  }

  /** What `list_venues` answers. The offset `(page - 1) * per_page` is
      bound as a 64-bit integer, so a page far enough out raises. */
  function ListSpec(table: seq<Venue>, page: int, perPage: int, f: FilterArgs): Result<ListResponse, ApiError> {
    if !ValidPaging(page, perPage) then Failure(InvalidQuery)
    else if (page - 1) * perPage > Int64Max then Failure(StoreFailure(BindingOverflow))
    else Success(ListResponse(page, perPage, |ListSelected(table, f)|,
                              ProjectAll(PageRows(ListMatches(table, f), page, perPage))))
  }

  /** The values the framework uses for a query parameter the request
      leaves out. */
  const DefaultPage: int := 1
  const DefaultPerPage: int := 50

  /** A query parameter as received, or its default when absent. */
  function OrDefault(x: Option<int>, default: int): int {
    if x.Some? then x.value else default
  }

  /** `GET /api/venues` with `page` and `per_page` as received: an absent
      one takes its default before `list_venues` runs. */
  method ListVenuesRequest(table: seq<Venue>, pageArg: Option<int>, perPageArg: Option<int>, f: FilterArgs)
    returns (r: Result<ListResponse, ApiError>)
    ensures r == ListSpec(table, OrDefault(pageArg, DefaultPage), OrDefault(perPageArg, DefaultPerPage), f)
    ensures pageArg.None? && perPageArg.None? ==> r.Success? && r.value.page == 1 && r.value.perPage == 50
  {
    r := ListVenues(table, OrDefault(pageArg, DefaultPage), OrDefault(perPageArg, DefaultPerPage), f);
  }

  method ListVenues(table: seq<Venue>, page: int, perPage: int, f: FilterArgs)
    returns (r: Result<ListResponse, ApiError>)
    ensures r == ListSpec(table, page, perPage, f)
  {
    if !(page >= 1 && 1 <= perPage <= MaxPerPage) {
      return Failure(InvalidQuery);
    }
    var where, params := BuildListFilter(f);
    ListQueriesMeaning(table, f, page, perPage);
    var total := CountQuery(table, where, TextValues(params)).value;
    var offset := (page - 1) * perPage;
    var execParams := TextValues(params) + [SqlInt(perPage), SqlInt(offset)];
    var q := PageQuery(table, where, execParams);
    if q.Failure? {
      assert offset > Int64Max && q.error == BindingOverflow;
      return Failure(StoreFailure(q.error));
    }
    var rows := q.value;
    assert offset <= Int64Max && rows == PageRows(ListMatches(table, f), page, perPage);
    var items := ProjectRows(rows);
    r := Success(ListResponse(page, perPage, total, items));
    ListSpecServed(table, page, perPage, f);
  }

  /** Paging within bounds and an offset that fits in 64 bits are served. */
  lemma ListSpecServed(table: seq<Venue>, page: int, perPage: int, f: FilterArgs)
    requires ValidPaging(page, perPage) && (page - 1) * perPage <= Int64Max
    ensures ListSpec(table, page, perPage, f) == Success(ListResponse(page, perPage, |ListSelected(table, f)|,
                                                          ProjectAll(PageRows(ListMatches(table, f), page, perPage))))
  {
  }

  /** The count and page statements run with the list builder's clauses
      and parameters: the number of selected rows, and the page of the
      name-ordered matches, or the binding error for an offset past 64
      bits. */
  lemma ListQueriesMeaning(table: seq<Venue>, f: FilterArgs, page: int, perPage: int)
    requires ValidPaging(page, perPage)
    ensures PlaceholderCount(BuiltClauses(f, ListColumns)) == |ValueArgs(f, ListColumns)|
    ensures CountQuery(table, BuiltClauses(f, ListColumns), TextValues(ValueArgs(f, ListColumns)))
            == Success(|ListSelected(table, f)|)
    ensures PageQuery(table, BuiltClauses(f, ListColumns),
                      TextValues(ValueArgs(f, ListColumns)) + [SqlInt(perPage), SqlInt((page - 1) * perPage)])
            == if (page - 1) * perPage > Int64Max then Failure(BindingOverflow)
               else Success(PageRows(ListMatches(table, f), page, perPage))
  {
    var where, params := BuiltClauses(f, ListColumns), ValueArgs(f, ListColumns);
    ListClausesMeaning(f);
    FilterCongruent(table, v => Matches(v, where, params), v => ListWants(f, v));
    assert Where(table, where, params) == ListSelected(table, f);
    FilterBindingsAccepted(table, where, params);
    PageStep(page, perPage);
    PagingBindsAfterFilters(table, where, params, perPage, (page - 1) * perPage);
  }

  // ---------------------------------------------------------------------
  // What a page holds
  // ---------------------------------------------------------------------

  /** Out-of-bounds paging is rejected, and an offset past 64 bits raises;
      otherwise the response echoes the paging, `total` counts every match
      whatever the page, and the items are at most `per_page` projected
      rows of the name-ordered matches. */
  lemma ListResponseShape(table: seq<Venue>, page: int, perPage: int, f: FilterArgs)
    ensures !ValidPaging(page, perPage) ==> ListSpec(table, page, perPage, f) == Failure(InvalidQuery)
    ensures ValidPaging(page, perPage) && (page - 1) * perPage > Int64Max ==>
      ListSpec(table, page, perPage, f) == Failure(StoreFailure(BindingOverflow))
    ensures ListSpec(table, page, perPage, f).Failure?
            <==> !ValidPaging(page, perPage) || (page - 1) * perPage > Int64Max
    ensures ValidPaging(page, perPage) && (page - 1) * perPage <= Int64Max ==>
      var resp := ListSpec(table, page, perPage, f).value;
      && resp.page == page && resp.perPage == perPage
      && resp.total == |ListSelected(table, f)|
      && |resp.items| <= perPage
      && resp.items == ProjectAll(PageRows(ListMatches(table, f), page, perPage))
  {
    if ValidPaging(page, perPage) && (page - 1) * perPage <= Int64Max {
      PageSize(ListMatches(table, f), page, perPage);
    }
  }

  /** A page number the framework accepts can still put the offset past
      64 bits: page 2 * 10^16 of 500 raises instead of answering an empty
      page. */
  lemma FarPageRaises(table: seq<Venue>, f: FilterArgs)
    ensures ListSpec(table, 20_000_000_000_000_000, 500, f) == Failure(StoreFailure(BindingOverflow))
  {
    assert (20_000_000_000_000_000 - 1) * 500 == 9_999_999_999_999_999_500;
  }

  function Min(a: int, b: int): int {
    if a <= b then a else b
  }

  /** A page is full except at the end of the matches, and empty past it. */
  lemma PageSize(xs: seq<Venue>, page: int, perPage: int)
    requires ValidPaging(page, perPage)
    ensures |PageRows(xs, page, perPage)| ==
      if (page - 1) * perPage >= |xs| then 0 else Min(perPage, |xs| - (page - 1) * perPage)
  {
    PageStep(page, perPage);
  }

  /** A page is the slice of the matches that starts at its offset. */
  lemma PageIsSlice(xs: seq<Venue>, page: int, perPage: int)
    requires ValidPaging(page, perPage) && (page - 1) * perPage <= |xs|
    ensures PageRows(xs, page, perPage) == xs[(page - 1) * perPage .. Min(page * perPage, |xs|)]
  {
    PageStep(page, perPage);
    LimitOffsetSlice(xs, perPage, (page - 1) * perPage);
  }

  /** Pages 1 to n, one after the other. */
  function Pages(xs: seq<Venue>, perPage: int, n: nat): seq<Venue> {
    if n == 0 then [] else Pages(xs, perPage, n - 1) + PageRows(xs, n, perPage)
  }

  /** Reading pages 1 to n in turn yields the first n * per_page matches,
      in order, each once. */
  lemma {:induction false} PagesTile(xs: seq<Venue>, perPage: int, n: nat)
    requires 1 <= perPage <= MaxPerPage
    ensures Pages(xs, perPage, n) == xs[..Min(n * perPage, |xs|)]
  {
    if n > 0 {
      PagesTile(xs, perPage, n - 1);
      PageStep(n, perPage);
      var lo := (n - 1) * perPage;
      var hi := Min(n * perPage, |xs|);
      if lo <= |xs| {
        PageIsSlice(xs, n, perPage);
        SliceJoin(xs, lo, hi);
      } else {
        assert PageRows(xs, n, perPage) == [];
        assert xs[..|xs|] == xs;
      }
    }
  }

  /** The rows before `lo` followed by the rows from `lo` to `hi` are the
      rows before `hi`: the next page extends what earlier pages listed. */
  lemma SliceJoin(xs: seq<Venue>, lo: int, hi: int)
    requires 0 <= lo <= hi <= |xs|
    ensures xs[..lo] + xs[lo..hi] == xs[..hi]
  {
  }

  /** Page n starts where page n - 1 ends: its offset is the previous
      offset plus `per_page` (kept apart so the product stays out of the
      induction above it). */
  lemma PageStep(n: nat, perPage: int)
    requires n > 0 && perPage >= 1
    ensures (n - 1) * perPage >= 0 && n * perPage == (n - 1) * perPage + perPage
  {
  }

  /** Enough pages to cover the total return every match exactly once, in
      the order of the matches. */
  lemma AllPagesListEveryMatch(table: seq<Venue>, f: FilterArgs, perPage: int, n: nat)
    requires 1 <= perPage <= MaxPerPage && n * perPage >= |ListSelected(table, f)|
    ensures Pages(ListMatches(table, f), perPage, n) == ListMatches(table, f)
    ensures multiset(Pages(ListMatches(table, f), perPage, n)) == multiset(ListSelected(table, f))
  {
    var xs := ListMatches(table, f);
    assert |xs| == |ListSelected(table, f)| by {
      assert |multiset(xs)| == |multiset(ListSelected(table, f))|;
    }
    PagesTile(xs, perPage, n);
    assert xs[..|xs|] == xs;
  }

  /** Page `page` holds consecutive rows of `xs` from its offset on, so a
      page of a sorted sequence is sorted. */
  lemma PageWithin(xs: seq<Venue>, page: int, perPage: int)
    requires ValidPaging(page, perPage)
    ensures forall v :: v in PageRows(xs, page, perPage) ==> v in xs
    ensures SortedByName(xs) ==> SortedByName(PageRows(xs, page, perPage))
  {
    LimitOffsetWithin(xs, perPage, (page - 1) * perPage);
  }

  /** Every match is a row of the table the list filters accept. */
  lemma MatchesAreSelected(table: seq<Venue>, f: FilterArgs)
    ensures forall v :: v in ListMatches(table, f) ==> v in table && ListWants(f, v)
  {
    forall v | v in ListMatches(table, f) ensures v in table && ListWants(f, v) {
      assert v in multiset(ListMatches(table, f));
      assert v in ListSelected(table, f);
    }
  }

  /** Every row of a page is a row of the table the list filters accept,
      and the page is in name order. */
  lemma PageRowsMatch(table: seq<Venue>, f: FilterArgs, page: int, perPage: int)
    requires ValidPaging(page, perPage)
    ensures forall v :: v in PageRows(ListMatches(table, f), page, perPage) ==> v in table && ListWants(f, v)
    ensures SortedByName(PageRows(ListMatches(table, f), page, perPage))
  {
    PageWithin(ListMatches(table, f), page, perPage);
    MatchesAreSelected(table, f);
  }

  /** With no filter set, the list query has no WHERE and the total is the
      size of the table. */
  lemma UnfilteredTotal(table: seq<Venue>, f: FilterArgs)
    requires Unconstrained(f)
    ensures BuiltClauses(f, ListColumns) == [] && WhereSql(BuiltClauses(f, ListColumns)) == ""
    ensures |ListSelected(table, f)| == |table|
  {
    BuiltClausesCount(f, ListColumns);
    FilterKeepsAll(table, v => ListWants(f, v));
  }

  /** The status filter is one more conjunct on top of the others. */
  lemma StatusIsAConjunct(f: FilterArgs, s: Option<string>, v: Venue)
    ensures ListWants(f.(openStatus := s), v) == (ListWants(f.(openStatus := None), v) && StatusWants(s, v))
  {
    var fs, fn := f.(openStatus := s), f.(openStatus := None);
    forall col ensures FilterValue(fs, col) == FilterValue(fn, col) == FilterValue(f, col) {
    }
    assert ListFieldWants(fs, v, ChainName) == ListFieldWants(fn, v, ChainName);
    assert ListFieldWants(fs, v, SubCategory) == ListFieldWants(fn, v, SubCategory);
    assert ListFieldWants(fs, v, Dma) == ListFieldWants(fn, v, Dma);
    assert ListFieldWants(fs, v, City) == ListFieldWants(fn, v, City);
    assert ListFieldWants(fs, v, StateName) == ListFieldWants(fn, v, StateName);
    assert StatusWants(fn.openStatus, v);
  }

  /** The listing with status `s` is the status-free listing narrowed by
      `s`. */
  lemma NarrowByStatus(table: seq<Venue>, f: FilterArgs, s: Option<string>)
    ensures ListSelected(table, f.(openStatus := s))
         == Filter(ListSelected(table, f.(openStatus := None)), v => StatusWants(s, v))
  {
    var base := f.(openStatus := None);
    var fs := f.(openStatus := s);
    forall v ensures ListWants(fs, v) == (ListWants(base, v) && StatusWants(s, v)) {
      StatusIsAConjunct(f, s, v);
    }
    FilterAnd(table, v => ListWants(base, v), v => StatusWants(s, v), v => ListWants(fs, v));
  }

  /** The open and the closed listings split the venues the other filters
      select: their totals add up to the total with no status filter. */
  lemma OpenAndClosedTotals(table: seq<Venue>, f: FilterArgs, openWord: string, closedWord: string)
    requires Lower(openWord) == "open" && Lower(closedWord) == "closed"
    ensures |ListSelected(table, f.(openStatus := Some(openWord)))|
          + |ListSelected(table, f.(openStatus := Some(closedWord)))|
         == |ListSelected(table, f.(openStatus := None))|
  {
    forall v ensures StatusWants(Some(openWord), v) != StatusWants(Some(closedWord), v) {
      OpenClosedComplementary(openWord, closedWord, v);
    }
    NarrowByStatus(table, f, Some(openWord));
    NarrowByStatus(table, f, Some(closedWord));
    FilterSplits(ListSelected(table, f.(openStatus := None)),
                 v => StatusWants(Some(openWord), v), v => StatusWants(Some(closedWord), v));
  }

  // ---------------------------------------------------------------------
  // GET /api/venues/summary
  // ---------------------------------------------------------------------

  /** The rows the summary endpoint counts. */
  function SummarySelected(table: seq<Venue>, f: FilterArgs): seq<Venue> {
    Filter(table, v => SummaryWants(f, v))
  }

  /** What `venues_summary` answers: the number of selected venues and
      the sum of their non-NULL foot traffic (0 when there is none), or
      SQLite's overflow error when a running total leaves 64 bits. */
  function SummarySpec(table: seq<Venue>, f: FilterArgs): Result<SummaryResponse, ApiError> {
    var m := SummarySelected(table, f);
    if RunningTotalOverflows(0, FootTraffics(m)) then Failure(StoreFailure(IntegerOverflow))
    else Success(SummaryResponse(|m|, Sum(FootTraffics(m))))
  }

  /** The summary statement run with the summary builder's clauses and
      parameters: the count and sum over the selected rows, or the
      overflow error. */
  lemma SummaryQueryMeaning(table: seq<Venue>, f: FilterArgs)
    ensures PlaceholderCount(BuiltClauses(f, SummaryColumns)) == |ValueArgs(f, SummaryColumns)|
    ensures SummaryQuery(table, BuiltClauses(f, SummaryColumns), TextValues(ValueArgs(f, SummaryColumns))) ==
      var m := SummarySelected(table, f);
      if RunningTotalOverflows(0, FootTraffics(m)) then Failure(IntegerOverflow)
      else Success((|m|, Sum(FootTraffics(m))))
  {
    var where, params := BuiltClauses(f, SummaryColumns), ValueArgs(f, SummaryColumns);
    SummaryClausesMeaning(f);
    FilterCongruent(table, v => Matches(v, where, params), v => SummaryWants(f, v));
    assert Where(table, where, params) == SummarySelected(table, f);
    AddAllMeaning(0, FootTraffics(SummarySelected(table, f)));
  }

  method VenuesSummary(table: seq<Venue>, f: FilterArgs) returns (r: Result<SummaryResponse, ApiError>)
    ensures r == SummarySpec(table, f)
  {
    var where, params := BuildSummaryFilter(f);
    SummaryQueryMeaning(table, f);
    var q := SummaryQuery(table, where, TextValues(params));
    match q {
      case Failure(e) =>
        r := Failure(StoreFailure(e));
      case Success(row) =>
        var (count, totalFootTraffic) := row;
        r := Success(SummaryResponse(count, totalFootTraffic));
    }
  }

  // ---------------------------------------------------------------------
  // The summary against the listing
  // ---------------------------------------------------------------------

  /** The foot traffic of rows with NULL counted as 0, front to back. */
  function RowsTraffic(rows: seq<Venue>): int {
    if rows == [] then 0 else OrZero(rows[0].footTraffic) + RowsTraffic(rows[1..])
  }

  /** The sum of the `foot_traffic` fields of response items. */
  function ItemsTraffic(items: seq<Item>): int {
    if items == [] then 0 else items[0].footTraffic + ItemsTraffic(items[1..])
  }

  lemma {:induction false} ItemsTrafficOfRows(rows: seq<Venue>)
    ensures ItemsTraffic(ProjectAll(rows)) == RowsTraffic(rows)
  {
    if rows != [] {
      assert ProjectAll(rows)[1..] == ProjectAll(rows[1..]);
      ItemsTrafficOfRows(rows[1..]);
    }
  }

  /** Summing the non-NULL values is summing with NULL as 0. */
  lemma {:induction false} SumOfFootTraffics(rows: seq<Venue>)
    ensures Sum(FootTraffics(rows)) == RowsTraffic(rows)
  {
    if rows != [] {
      SumOfFootTraffics(rows[1..]);
      if rows[0].footTraffic.Some? {
        SumCons(rows[0].footTraffic.value, FootTraffics(rows[1..]));
      } else {
        assert FootTraffics(rows) == FootTraffics(rows[1..]);
      }
    }
  }

  lemma {:induction false} InsertKeepsTraffic(x: Venue, s: seq<Venue>)
    requires SortedByName(s)
    ensures RowsTraffic(InsertByName(x, s)) == OrZero(x.footTraffic) + RowsTraffic(s)
  {
    if s != [] && !NameLe(x.name, s[0].name) {
      InsertKeepsTraffic(x, s[1..]);
      assert InsertByName(x, s)[1..] == InsertByName(x, s[1..]);
    } else {
      assert InsertByName(x, s)[1..] == s;
    }
  }

  /** Sorting does not change the traffic total. */
  lemma {:induction false} SortKeepsTraffic(xs: seq<Venue>)
    ensures RowsTraffic(SortByName(xs)) == RowsTraffic(xs)
  {
    if xs != [] {
      SortKeepsTraffic(xs[1..]);
      InsertKeepsTraffic(xs[0], SortByName(xs[1..]));
    }
  }

  /** When chain, category and DMA are not set, the summary agrees with
      the listing: it counts the listing's total, and its foot traffic is
      the sum of `foot_traffic` over the items of all the pages. */
  lemma SummaryAgreesWithListing(table: seq<Venue>, f: FilterArgs, perPage: int, n: nat)
    requires !Active(f.chain) && !Active(f.category) && !Active(f.dma)
    requires 1 <= perPage <= MaxPerPage && n * perPage >= |ListSelected(table, f)|
    requires !RunningTotalOverflows(0, FootTraffics(SummarySelected(table, f)))
    ensures SummarySpec(table, f) == Success(SummaryResponse(
      |ListSelected(table, f)|, ItemsTraffic(ProjectAll(Pages(ListMatches(table, f), perPage, n)))))
  {
    forall v ensures ListWants(f, v) == SummaryWants(f, v) {
      ListAndSummaryAgree(f, v);
    }
    FilterCongruent(table, v => ListWants(f, v), v => SummaryWants(f, v));
    AllPagesListEveryMatch(table, f, perPage, n);
    ItemsTrafficOfRows(ListMatches(table, f));
    SortKeepsTraffic(ListSelected(table, f));
    SumOfFootTraffics(SummarySelected(table, f));
  }

  /** A table with no foot traffic at all sums to 0, not NULL. */
  lemma NoTrafficSumsToZero(table: seq<Venue>, f: FilterArgs)
    requires forall v :: v in table ==> v.footTraffic.None?
    ensures SummarySpec(table, f) == Success(SummaryResponse(|SummarySelected(table, f)|, 0))
  {
    NoTrafficValues(SummarySelected(table, f));
  }

  lemma {:induction false} NoTrafficValues(rows: seq<Venue>)
    requires forall v :: v in rows ==> v.footTraffic.None?
    ensures FootTraffics(rows) == []
  {
    if rows != [] {
      assert rows[0] in rows;
      assert forall v :: v in rows[1..] ==> v in rows;
      NoTrafficValues(rows[1..]);
    }
  }
}
