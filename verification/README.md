# Venue query layer and CSV row normaliser, in Dafny

This project models two parts of the Bigbox venues backend:

- The two read endpoints of the FastAPI application:
  - `GET /api/venues` (`list_venues`) is a filtered, name-ordered and paginated listing.
  - `GET /api/venues/summary` (`venues_summary`) returns the number of matching venues and their total foot traffic.
- The row normaliser of the CSV loader (`normalize_row`, `parse_int`, `parse_float`, `FIELD_ORDER`) and the text of the INSERT statement it feeds.

The `venues` table is a sequence of `Venue` rows. SQLite's part of each query is modelled on that sequence:
- the WHERE clauses with `?` placeholders bound by position;
- `LIKE … COLLATE NOCASE` with its `%` and `_` wildcards;
- `ORDER BY name COLLATE NOCASE`, `LIMIT`/`OFFSET`, `COUNT(*)` and `COALESCE(SUM(foot_traffic), 0)`, including SUM's 64-bit overflow error.

The endpoints keep the source's form. Each builder starts with two empty lists, `where` and `params`, and appends to them one `if` at a time. Each builder is proved against a specification function: the clause list it builds, the parameter list it builds, and the set of rows those clauses select. `list_venues` turns the fetched rows into items in a loop, proved against a projection function. Each endpoint as a whole is proved equal to a specification of its response.

Module layout:
- `Wrappers.dfy`: `Option` and `Result`.
- `Strings.dfy`:
  - ASCII case folding, as used by SQLite's NOCASE and LIKE;
  - Python's `str.strip()`, `str.join` and `str.split`;
  - code-point order on text.
- `SqlLike.dfy`: SQLite's LIKE matcher and what a `%v%` pattern means.
- `Store.dfy`:
  - the `Venue` row and the WHERE clause templates, with their SQL text and binding;
  - row filtering, ordering, `LIMIT`/`OFFSET`, and SUM with overflow;
  - the three queries the endpoints run.
- `Filters.dfy`: the filter parameters, the two clause builders, and what their clauses select.
- `Api.dfy`: the two endpoints, pagination, item projection, and summary against listing.
- `Loader.dfy`:
  - Python's `int()` on text, `parse_int` and `parse_float`;
  - the key/value stripping of `normalize_row` and the 24-slot output;
  - the INSERT column list and placeholders.

Conventions of the model:
- A `requires` only says what the source demands of its caller. Every other bad input takes the error path the source takes:
  - a `page` or `per_page` outside the bounds FastAPI declares gives `Failure(InvalidQuery)`;
  - an absent `page` or `per_page` takes its declared default, 1 or 50;
  - an offset `(page - 1) * per_page` above 2^63 - 1 cannot be bound as an SQLite INTEGER, and the page query raises: `Failure(StoreFailure(BindingOverflow))`;
  - a SUM overflow gives `Failure(StoreFailure(IntegerOverflow))`;
  - a CSV row with a `None` key (the surplus cells of an over-long line) gives `Failure(NoneKey)`, because `None.strip()` raises.
- The two endpoints filter text differently, and the model keeps the difference. The list endpoint matches `chain`, `category` and `dma` with `LIKE '%v%' COLLATE NOCASE` (`backend/src/app.py:181-189`). The summary endpoint compares those three with `=` (`backend/src/app.py:256-264`). `ListAndSummaryDiffer` exhibits a venue that the list selects but the summary does not count. `ListAndSummaryAgree` shows the two agree when those three filters are unset.
- The comment at `backend/load_csv.py:51` says the keys are lower-cased. The code only strips them (`k.strip()`), and the model follows the code.

## Model

| member | source | states |
|---|---|---|
| Filters.AppendIfSet | backend/src/app.py:181-195 | When a value filter is set (not None, not empty, not "all" in any letter case), one clause is appended to `where` and its parameter to `params`. Otherwise neither list changes. |
| Filters.AppendStatus | backend/src/app.py:197-201 | `open_status` "open" (any case) appends the open test, "closed" appends the closed test, and anything else appends nothing. |
| Filters.BuildListFilter | backend/src/app.py:177-201 | The list builder's clauses and parameters are the specified ones. There are as many placeholders as parameters, one parameter per set value filter. A row satisfies all clauses exactly when `ListWants` holds: chain, category and DMA match `%v%` case-insensitively, city and state are equal, and the status test holds. There is no clause at all exactly when no filter is set. |
| Filters.BuildSummaryFilter | backend/src/app.py:254-275 | As BuildListFilter for the summary builder, with every value filter compared by equality (`SummaryWants`). |
| Filters.ValueArgsLineUp | backend/src/app.py:181-195 | There is one parameter per value clause, in clause order. Each parameter is the one its own clause's filter gives: `%v%` for a LIKE clause, the raw value for an equality. |
| Filters.BuiltClausesCount | backend/src/app.py:181-201 | The parameter count equals the number of set value filters. The clause list is empty exactly when no filter, status included, is set. |
| Filters.ListClausesMeaning | backend/src/app.py:181-205 | Every row: the AND of the list builder's clauses, with its parameters bound, holds exactly when `ListWants` holds. |
| Filters.SummaryClausesMeaning | backend/src/app.py:256-280 | Every row: the AND of the summary builder's clauses holds exactly when `SummaryWants` holds. |
| Filters.StatusPieceCount | backend/src/app.py:197-201 | The status clause, whichever it is, takes no parameter. |
| Filters.StatusPieceMeaning | backend/src/app.py:197-201 | The status clause takes no parameter. A row satisfies it exactly when the row's open/closed state is the one asked for. |
| Filters.Active | backend/src/app.py:181-195 | Definition, no contract: a value filter applies when it is not None, not empty, and not "all" in any letter case. `AppendIfSet` and `BuiltClausesCount` state what follows from it. |
| Filters.ListTextFilterIsSubstring | backend/src/app.py:181-189 | For a filter value without `%` or `_`, the list's chain/category/DMA clause holds exactly when the column is non-NULL and contains the value, ignoring ASCII case. |
| Filters.NullNeverMatches | backend/src/app.py:181-195 | A row whose column is NULL is selected by neither endpoint when that column's filter is set. |
| Filters.OpenClosedComplementary | backend/src/app.py:197-201 | Every venue satisfies exactly one of "open" and "closed", in any letter case. |
| Filters.OtherStatusIgnored | backend/src/app.py:197-201 | Any `open_status` other than open/closed, None included, rejects no row. |
| Filters.ListAndSummaryAgree | backend/src/app.py:190-195 | With chain, category and DMA unset, both endpoints select the same rows. |
| Filters.ListAndSummaryDiffer | backend/src/app.py:256-258 | `chain=tar` lists a "Target" venue, but the summary does not count it: list matches by substring, summary by equality. |
| SqlLike.Like | backend/src/app.py:182 | Definition, no contract: SQLite's LIKE matcher, with `%` for any run of characters, `_` for one character, and ASCII letters compared without case. Its meaning is stated by `ContainsPattern`, `LeadingPercent`, `PrefixPercent` and `UnderscoreIsAWildcard`. |
| SqlLike.ContainsPattern | backend/src/app.py:183 | For a value `v` without wildcards, `s LIKE '%v%'` holds exactly when `v` occurs in `s` under ASCII case folding. |
| SqlLike.LeadingPercent | backend/src/app.py:183 | A leading `%` matches exactly when the rest of the pattern matches some suffix. |
| SqlLike.PrefixPercent | backend/src/app.py:183 | `v%` with `v` wildcard-free matches exactly the texts that start with `v` up to ASCII case. |
| SqlLike.UnderscoreIsAWildcard | backend/src/app.py:183 | The user's value is not escaped: `chain=T_rget` matches "Target" although "Target" does not contain "T_rget". |
| Store.MatchesConcat | backend/src/app.py:203-205 | Clauses joined by AND: a row satisfies `w1 + w2` with `a1 + a2` bound exactly when it satisfies both halves. |
| Store.WhereSqlMarks | backend/src/app.py:203-205 | The WHERE text, which is empty without clauses, holds exactly as many `?` as the clauses take parameters. |
| Store.InsertByName | backend/src/app.py:215 | Inserting a row into a list sorted by NOCASE name (NULL first) keeps it sorted and adds exactly that row. |
| Store.SortByName | backend/src/app.py:215 | `ORDER BY name COLLATE NOCASE ASC` gives a sorted permutation of the selected rows. |
| Store.AddAllMeaning | backend/src/app.py:277 | SQLite's integer SUM fails exactly when a running total leaves the 64-bit range, and otherwise gives the sum. |
| Store.CountQuery | backend/src/app.py:210-212 | Definition, no contract: `SELECT COUNT(*)` with the parameters bound by position, a wrong number of parameters being an error. `FilterBindingsAccepted` states its result. |
| Store.PageQuery | backend/src/app.py:214-217 | Definition, no contract: the page `SELECT` with the filter parameters, then LIMIT, then OFFSET bound by position. An integer outside 64 bits raises. `PagingBindsAfterFilters` states its result. |
| Store.SummaryQuery | backend/src/app.py:277-285 | Definition, no contract: `SELECT COUNT(*), COALESCE(SUM(foot_traffic),0)` with the parameters bound. `FilterBindingsAccepted` and `Api.SummaryQueryMeaning` state its result. |
| Store.PagingBindsAfterFilters | backend/src/app.py:214-217 | Binding the filter parameters followed by `per_page` and `offset` returns the filtered rows, name-ordered, then sliced by LIMIT/OFFSET. It raises exactly when `per_page` or `offset` lies outside the 64-bit range. |
| Store.FilterBindingsAccepted | backend/src/app.py:210-212 | With the builder's parameters bound, COUNT(*) is the number of filtered rows. The summary query fails only on a SUM overflow. |
| Api.Project | backend/src/app.py:223-235 | Definition, no contract: one item from one row, with the eleven selected columns and a NULL `foot_traffic` as 0. `ProjectRows` and `ItemsTrafficOfRows` state what follows from it. |
| Api.ProjectRows | backend/src/app.py:221-235 | The item loop gives one item per fetched row, in order. Each item copies the row's columns (`sub_category` as `category`, `state_name` as `state`) with a NULL `foot_traffic` as 0. |
| Api.ListVenuesRequest | backend/src/app.py:166-169 | An absent `page` is 1 and an absent `per_page` is 50, and the response is then that of `list_venues`. A request with neither is served as page 1 of 50. |
| Api.ListVenues | backend/src/app.py:166-242 | The response is `InvalidQuery` outside `page >= 1`, `1 <= per_page <= 500`, and `BindingOverflow` when the offset `(page-1)*per_page` exceeds 2^63 - 1. Otherwise it echoes the paging, `total` counts every selected row, and the items are the page at that offset of the name-ordered matches, projected. |
| Api.ListQueriesMeaning | backend/src/app.py:208-217 | With the list builder's parameters bound, COUNT(*) is the number of selected rows. The page query returns the page at offset `(page-1)*per_page` of the name-ordered matches, or `BindingOverflow` when that offset exceeds 2^63 - 1. |
| Api.ListResponseShape | backend/src/app.py:210-242 | Out-of-bounds paging gives `InvalidQuery`, an offset past 64 bits gives `BindingOverflow`, and nothing else fails. `total` does not depend on `page`, and a page holds at most `per_page` items. |
| Api.FarPageRaises | backend/src/app.py:166-217 | `page=20000000000000000`, `per_page=500` passes the framework's bounds but gives an offset past 2^63 - 1, so the request fails with `BindingOverflow` rather than returning an empty page. |
| Api.PageSize | backend/src/app.py:214-217 | A page holds `min(per_page, matches - offset)` rows, and none past the last match. |
| Api.PageIsSlice | backend/src/app.py:214-217 | A page is the slice `[offset, min(offset + per_page, matches))` of the ordered matches. |
| Api.PagesTile | backend/src/app.py:214-215 | Pages 1..n laid end to end are the first `n*per_page` ordered matches: no row is skipped or repeated. |
| Api.AllPagesListEveryMatch | backend/src/app.py:210-217 | Enough pages together list exactly the selected rows, as a multiset. |
| Api.PageRowsMatch | backend/src/app.py:215-218 | Every row on a page is in the table and satisfies the filters, and a page is in name order. |
| Api.UnfilteredTotal | backend/src/app.py:203-212 | Without any filter the list builder gives no clause, so the query text has no WHERE, and `total` is the size of the table. |
| Api.NarrowByStatus | backend/src/app.py:197-201 | Adding a status filter keeps, in order, exactly those rows of the unfiltered-by-status selection that have that status. |
| Api.OpenAndClosedTotals | backend/src/app.py:197-212 | With the other filters fixed, the open total plus the closed total is the total without a status filter. |
| Api.VenuesSummary | backend/src/app.py:245-287 | The summary is the number of selected venues and the sum of their non-NULL foot traffic (0 when there is none). It is SQLite's overflow error when a running total leaves 64 bits. |
| Api.ItemsTrafficOfRows | backend/src/app.py:232 | The items' foot traffic, summed, is the rows' foot traffic with NULL counted as 0. |
| Api.SortKeepsTraffic | backend/src/app.py:215 | Ordering the rows does not change their total foot traffic. |
| Api.SummaryAgreesWithListing | backend/src/app.py:277-287 | When chain, category and DMA are unset and SUM does not overflow, the summary's count is the list's `total`. Its foot traffic is the sum of `foot_traffic` over the items of all pages. |
| Api.NoTrafficSumsToZero | backend/src/app.py:277 | When no row has a foot traffic value, the summary reports 0, not NULL. |
| Strings.Strip | backend/load_csv.py:52 | The stripped text neither starts nor ends with whitespace. |
| Strings.StripMeaning | backend/load_csv.py:52 | The original text is the stripped text with only whitespace before and after it. |
| Strings.StripIdempotent | backend/load_csv.py:52 | Stripping twice is stripping once. |
| Strings.SplitJoin | backend/load_csv.py:134 | Joining names with a separator none of them contains and splitting on it gives the names back. |
| Loader.PyIntOfStr | backend/load_csv.py:33 | Definition, no contract: Python's `int()` on a str. It skips surrounding whitespace (`IntStrip`), then accepts an optional sign and at most 4300 digits with single underscores between them. Its values are stated by the lemmas below. |
| Loader.IntStrip | backend/load_csv.py:33 | Neither end of the text `int()` parses is whitespace in `int()`'s sense: what `str.isspace()` accepts except the ASCII separators U+001C to U+001F. |
| Loader.IntStripOfClean | backend/load_csv.py:33 | Text whose ends are not such whitespace reaches the digit parser unchanged. |
| Loader.IntStripAfterStrip | backend/load_csv.py:52-61 | After `str.strip()` there is nothing left for `int()` to skip, so on the loader's stripped values the two whitespace sets never disagree. |
| Loader.IntOfPadded | backend/load_csv.py:33 | `int(" 42\n")` is 42. |
| Loader.InfoSeparatorIsNotIntSpace | backend/load_csv.py:29-36 | U+001C is whitespace to `str.isspace()`, yet `int("\x1c5")` raises, so `parse_int` hands that text to the `int(float(v))` fallback. |
| Loader.IntOfSignedDigits | backend/load_csv.py:33 | For every sign among none, `+` and `-`, and every digit body of at most 4300 digits, with any leading zeros and single underscores: `int()` gives the value the digits spell, negated for `-`. |
| Loader.LeadingZerosIgnored | backend/load_csv.py:33 | Leading zeros add digits to the count but do not change the value. |
| Loader.UnderscoreIgnored | backend/load_csv.py:33 | An underscore between digits changes neither the digit count nor the value. |
| Loader.IntOfPlusSigned | backend/load_csv.py:33 | `int("+" + str(n))` is `n`. |
| Loader.IntOfZeroPadded | backend/load_csv.py:33 | `int("-" + "0"*k + str(n))` is `-n`. |
| Loader.IntOfGrouped | backend/load_csv.py:33 | `int("1_000")` is 1000. |
| Loader.IntOfDecimal | backend/load_csv.py:33 | `int()` of the decimal text of any integer of at most 4300 digits is that integer. |
| Loader.FractionIsNotAnInt | backend/load_csv.py:33-36 | `int("12.5")` raises, so `parse_int` falls back to the float path. |
| Loader.ParseInt | backend/load_csv.py:29-38 | Definition, no contract: None, a non-text value and `''` give None; otherwise `int(v)` (`PyIntOfStr`, with `int()`'s own whitespace set), then the `int(float(v))` fallback. Stated by `ParseIntOfSignedDigits`, `ParseIntOfDecimal`, `ParseIntOfNothing`, `FractionIsNotAnInt` and `InfoSeparatorIsNotIntSpace`. |
| Loader.ParseFloat | backend/load_csv.py:41-47 | Definition, no contract: None, a non-text value and `''` give None; otherwise `float(v)`, a parameter. Stated by `ParseIntOfNothing`. |
| Loader.ParseIntOfSignedDigits | backend/load_csv.py:29-33 | `parse_int` of any optionally signed digit body (leading zeros and underscores allowed, at most 4300 digits) is the value it spells, whatever the float fallback would give. |
| Loader.ParseIntOfDecimal | backend/load_csv.py:29-33 | `parse_int(str(n))` is `n`, whatever the float fallback would give. |
| Loader.ParseIntOfNothing | backend/load_csv.py:29-47 | `parse_int` and `parse_float` map a missing value, `''` and a non-text value to None without raising. |
| Loader.StripRow | backend/load_csv.py:52 | The stripping comprehension fails exactly when some key is None. |
| Loader.StripRowKeys | backend/load_csv.py:52 | The stripped row's keys are exactly the stripped input keys. |
| Loader.StripRowLastWins | backend/load_csv.py:52 | When two keys strip to the same name, the later entry's stripped value is kept. |
| Loader.StripRowStripsText | backend/load_csv.py:52 | Every text value of the stripped row is stripped. |
| Loader.NormalizeRow | backend/load_csv.py:50-63 | The loop's output is the specified row: one cell per `FIELD_ORDER` name, looked up in the stripped row with `''` for a missing key. `foot_traffic` goes through `parse_int`, the four metric columns through `parse_float`, and other columns keep their text with `''` as NULL. |
| Loader.NormalizedRowShape | backend/load_csv.py:53-63 | The row fails exactly when a key is None. Otherwise it has 24 cells in `FIELD_ORDER` order, with integers only in `foot_traffic` and reals only in the four metric columns. |
| Loader.MissingColumnIsNull | backend/load_csv.py:55-62 | A column that no stripped key names is NULL. |
| Loader.TextColumnTakesLastCell | backend/load_csv.py:61-62 | A text column holds its last cell stripped, or NULL when that is empty. |
| Loader.FootTrafficTakesInteger | backend/load_csv.py:57-58 | A `foot_traffic` cell that strips to an optionally signed digit body (leading zeros and underscores allowed) becomes the integer it spells. |
| Loader.InsertSql | backend/load_csv.py:133-134 | Definition, no contract: the INSERT text, with the columns joined by commas and one `?` per column. Stated by `ColumnListRoundTrip`, `InsertSqlMarks` and `LoaderInsertBindsRow`. |
| Loader.ColumnListRoundTrip | backend/load_csv.py:134 | The INSERT's column list splits back into exactly `FIELD_ORDER`. |
| Loader.InsertSqlMarks | backend/load_csv.py:133-134 | For any column list whose names hold no `?`, the empty list included, the INSERT text holds one `?` per column named. |
| Loader.LoaderInsertBindsRow | backend/load_csv.py:133-134 | The INSERT has 24 placeholders, one per cell of a normalised row. |
| Loader.FilterColumnsAreLoaded | backend/load_csv.py:22-26 | Every column the endpoints filter on is one of the loaded `FIELD_ORDER` columns. |

## Left out

- Connections and SQL execution (`get_conn`, `cursor`, `execute`, `close`): the table is a sequence of rows, and each query is its meaning on that sequence.
- `init_db`, the startup hook, CSV discovery and seeding in `backend/src/app.py`: file I/O and schema creation.
- `get_pois`: a single DISTINCT query with no logic of its own.
- The FastAPI app, CORS and routing. Out-of-bounds paging is the single error `InvalidQuery`; the 422 response body is not modelled.
- `load_into_db` and `main` in `backend/load_csv.py`: file checks, `csv.DictReader` parsing, `executemany`, commit, printing and argument parsing. An integer `foot_traffic` outside 64 bits, which `executemany` cannot bind, is not modelled as an error. A DictReader row comes in as a list of key/value entries in insertion order.
- Loader.ParseFloat: Python's `float()` on text is a function parameter, so NaN, infinities and float formatting are not modelled.
- Loader.ParseInt: the `int(float(v))` fallback is also a parameter. `int()` is modelled for ASCII digits only. Unicode decimal digits from other scripts, which Python also accepts, are not modelled. The 4300-digit limit is the default in CPython releases that have the int/str digit limit (3.11, and 3.7.14, 3.8.14, 3.9.14 and 3.10.7 onward).
- Loader.NormalizeRow: DictReader puts the surplus cells of an over-long line under the `None` key, so such a row fails on `None.strip()` before any list value is read. The `Raw` type still allows a list under a text key, which DictReader does not produce. The model keeps such a value as a `ListCell`, and what `executemany` would do with it is not modelled.
- Store.SortByName: SQLite leaves the order of rows with equal names unspecified. The model keeps them in table order.
- Filters.Active: Python's `str.lower()` is modelled as ASCII lower-casing (`Lower`). For the only comparisons the endpoints make, with "all", "open" and "closed", the two agree on every input: the only non-ASCII characters Python lower-cases to text containing ASCII letters are U+0130, which gives `i` and a combining dot, and KELVIN SIGN, which gives `k`, and neither `i` nor `k` occurs in those three words. Lower-casing of any other text is not modelled.
- SqlLike.Like: SQLite's limit on LIKE pattern length is not modelled.
- Store.PageQuery: the three queries give `UnsupportedBinding` to a binding outside what the endpoints pass, such as a non-text filter parameter. The endpoints never reach it.
- Api.VenuesSummary: `cnt or 0` is the identity on a count and is modelled as such. The SUM over REAL values that a non-integer `foot_traffic` could produce is not modelled, because the column holds integers or NULL.
