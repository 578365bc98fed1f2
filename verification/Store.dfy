/** The `venues` table and the slice of SQLite the query layer relies on:
    WHERE conjuncts written as templates with `?` placeholders, positional
    binding of parameters, `COUNT(*)`, `ORDER BY name COLLATE NOCASE ASC`,
    `LIMIT ? OFFSET ?` and SQLite's integer `SUM`. The table is an in-memory
    sequence of rows in scan (insertion) order. */
module Store {
  import opened Wrappers
  import opened Strings
  import opened SqlLike

  /** One row of `venues`; every column but `id` may be NULL. */
  datatype Venue = Venue(
    id: int,
    entityId: Option<string>,
    entityType: Option<string>,
    name: Option<string>,
    footTraffic: Option<int>,
    sales: Option<real>,
    avgDwellTimeMin: Option<real>,
    areaSqft: Option<real>,
    ftPerSqft: Option<real>,
    geolocation: Option<string>,
    country: Option<string>,
    stateCode: Option<string>,
    stateName: Option<string>,
    city: Option<string>,
    postalCode: Option<string>,
    formattedCity: Option<string>,
    streetAddress: Option<string>,
    subCategory: Option<string>,
    dma: Option<string>,
    cbsa: Option<string>,
    chainId: Option<string>,
    chainName: Option<string>,
    storeId: Option<string>,
    dateOpened: Option<string>,
    dateClosed: Option<string>)

  /** A venue is open when its closing date is NULL or empty; the status is
      derived, never stored. */
  predicate IsOpen(v: Venue) {
    v.dateClosed.None? || v.dateClosed.value == ""
  }

  /** The columns a filter can constrain. The list is closed, so no text
      from a request ever becomes a column name. */
  datatype Column = ChainName | SubCategory | Dma | City | StateName

  function ColumnValue(v: Venue, c: Column): Option<string> {
    match c
    case ChainName => v.chainName
    case SubCategory => v.subCategory
    case Dma => v.dma
    case City => v.city
    case StateName => v.stateName
  }

  function ColumnSql(c: Column): string {
    match c
    case ChainName => "chain_name"
    case SubCategory => "sub_category"
    case Dma => "dma"
    case City => "city"
    case StateName => "state_name"
  }

  /** One conjunct of a WHERE clause as the query text holds it. Filter
      values never appear here: a clause that needs one has a `?`. */
  datatype Clause =
    | LikeNoCase(col: Column)   // <col> LIKE ? COLLATE NOCASE
    | Equals(col: Column)       // <col> = ?
    | OpenTest                  // (date_closed IS NULL OR date_closed = '')
    | ClosedTest                // (date_closed IS NOT NULL AND date_closed <> '')

  /** The number of `?` placeholders in a clause. */
  function Arity(c: Clause): nat {
    if c.LikeNoCase? || c.Equals? then 1 else 0
  }

  function PlaceholderCount(where: seq<Clause>): nat {
    if where == [] then 0
    else PlaceholderCount(where[..|where| - 1]) + Arity(where[|where| - 1])
  }

  /** Whether row `v` satisfies clause `c` with its placeholder bound to
      `args`. A comparison with a NULL column is NULL, which WHERE rejects. */
  predicate ClauseHolds(v: Venue, c: Clause, args: seq<string>)
    requires |args| == Arity(c)
  {
    match c
    case LikeNoCase(col) => ColumnValue(v, col).Some? && Like(ColumnValue(v, col).value, args[0])
    case Equals(col) => ColumnValue(v, col) == Some(args[0])
    case OpenTest => IsOpen(v)
    case ClosedTest => v.dateClosed.Some? && v.dateClosed.value != ""
  }

  /** The clauses joined by AND, parameters bound left to right: the last
      clause takes the last `Arity` parameters. No clause means no WHERE,
      which keeps every row. */
  predicate Matches(v: Venue, where: seq<Clause>, args: seq<string>)
    requires PlaceholderCount(where) == |args|
    decreases |where|
  {
    if where == [] then true
    else
      var c := where[|where| - 1];
      var k := |args| - Arity(c);
      Matches(v, where[..|where| - 1], args[..k]) && ClauseHolds(v, c, args[k..])
  }

  /** The placeholders of two clause lists add up. */
  lemma {:induction false} PlaceholderCountConcat(w1: seq<Clause>, w2: seq<Clause>)
    ensures PlaceholderCount(w1 + w2) == PlaceholderCount(w1) + PlaceholderCount(w2)
    decreases |w2|
  {
    if w2 == [] {
      assert w1 + w2 == w1;
    } else {
      var w := w1 + w2;
      assert w[..|w| - 1] == w1 + w2[..|w2| - 1];
      PlaceholderCountConcat(w1, w2[..|w2| - 1]);
    }
  }

  /** Joining two clause lists by AND, each with its own parameters bound
      in order, keeps exactly the rows both keep. */
  lemma {:induction false} MatchesConcat(v: Venue, w1: seq<Clause>, a1: seq<string>, w2: seq<Clause>, a2: seq<string>)
    requires PlaceholderCount(w1) == |a1| && PlaceholderCount(w2) == |a2|
    ensures PlaceholderCount(w1 + w2) == |a1 + a2|
    ensures Matches(v, w1 + w2, a1 + a2) <==> Matches(v, w1, a1) && Matches(v, w2, a2)
    decreases |w2|
  {
    PlaceholderCountConcat(w1, w2);
    if w2 == [] {
      assert w1 + w2 == w1;
      assert a1 + a2 == a1;
    } else {
      var c := w2[|w2| - 1];
      var k2 := |a2| - Arity(c);
      var w := w1 + w2;
      var a := a1 + a2;
      assert w[..|w| - 1] == w1 + w2[..|w2| - 1];
      assert a[..|a| - Arity(c)] == a1 + a2[..k2];
      assert a[|a| - Arity(c)..] == a2[k2..];
      MatchesConcat(v, w1, a1, w2[..|w2| - 1], a2[..k2]);
    }
  }

  // ---------------------------------------------------------------------
  // The query text
  // ---------------------------------------------------------------------

  function ClauseSql(c: Clause): string {
    match c
    case LikeNoCase(col) => ColumnSql(col) + " LIKE " + "?" + " COLLATE NOCASE"
    case Equals(col) => ColumnSql(col) + " = " + "?"
    case OpenTest => "(date_closed IS NULL OR date_closed = '')"
    case ClosedTest => "(date_closed IS NOT NULL" + " AND date_closed <> '')"
  }

  function ClausesSql(where: seq<Clause>): (r: seq<string>)
    ensures |r| == |where|
  {
    if where == [] then [] else [ClauseSql(where[0])] + ClausesSql(where[1..])
  }

  /** The text appended to `FROM venues`. */
  function WhereSql(where: seq<Clause>): string {
    if where == [] then "" else " WHERE " + Join(" AND ", ClausesSql(where))
  }

  lemma {:induction false} NoMarks(s: string)
    requires '?' !in s
    ensures Count(s, '?') == 0
  {
    if |s| > 0 {
      NoMarks(s[1..]);
    }
  }

  lemma MarksOfTemplate(col: Column, op: string, tail: string)
    requires '?' !in op && '?' !in tail
    ensures Count(ColumnSql(col) + op + "?" + tail, '?') == 1
  {
    assert '?' !in ColumnSql(col);
    OneMarkBetween(ColumnSql(col), op, tail);
  }

  lemma OneMarkBetween(a: string, b: string, c: string)
    requires '?' !in a && '?' !in b && '?' !in c
    ensures Count(a + b + "?" + c, '?') == 1
  {
    NoMarks(a);
    NoMarks(b);
    NoMarks(c);
    assert Count("?", '?') == 1;
    CountAppend(a, b, '?');
    CountAppend(a + b, "?", '?');
    CountAppend(a + b + "?", c, '?');
  }

  lemma ClosedMarks()
    ensures Count("(date_closed IS NOT NULL" + " AND date_closed <> '')", '?') == 0
  {
    NoMarksEither("(date_closed IS NOT NULL", " AND date_closed <> '')");
  }

  lemma NoMarksEither(a: string, b: string)
    requires '?' !in a && '?' !in b
    ensures Count(a + b, '?') == 0
  {
    NoMarks(a);
    NoMarks(b);
    CountAppend(a, b, '?');
  }

  lemma OpenMarks()
    ensures Count("(date_closed IS NULL OR date_closed = '')", '?') == 0
  {
    NoMarks("(date_closed IS NULL OR date_closed = '')");
  }

  lemma ClauseMarks(c: Clause)
    ensures Count(ClauseSql(c), '?') == Arity(c)
  {
    match c
    case LikeNoCase(col) =>
      MarksOfTemplate(col, " LIKE ", " COLLATE NOCASE");
    case Equals(col) =>
      MarksOfTemplate(col, " = ", "");
      assert ColumnSql(col) + " = " + "?" + "" == ClauseSql(c);
    case OpenTest =>
      OpenMarks();
    case ClosedTest =>
      ClosedMarks();
  }

  lemma {:induction false} PlaceholderCountCons(c: Clause, where: seq<Clause>)
    ensures PlaceholderCount([c] + where) == Arity(c) + PlaceholderCount(where)
    decreases |where|
  {
    if where != [] {
      assert ([c] + where)[..|where|] == [c] + where[..|where| - 1];
      PlaceholderCountCons(c, where[..|where| - 1]);
    }
  }

  lemma {:induction false} JoinMarks(where: seq<Clause>)
    requires where != []
    ensures Count(Join(" AND ", ClausesSql(where)), '?') == PlaceholderCount(where)
    decreases |where|
  {
    var texts := ClausesSql(where);
    var head := ClauseSql(where[0]);
    ClauseMarks(where[0]);
    PlaceholderCountCons(where[0], where[1..]);
    assert [where[0]] + where[1..] == where;
    if |where| == 1 {
      assert texts == [head];
    } else {
      var tail := Join(" AND ", ClausesSql(where[1..]));
      assert texts[0] == head && texts[1..] == ClausesSql(where[1..]);
      assert Join(" AND ", texts) == head + " AND " + tail;
      JoinMarks(where[1..]);
      NoMarks(" AND ");
      CountAppend(head, " AND ", '?');
      CountAppend(head + " AND ", tail, '?');
    }
  }

  /** Filter values reach the query only as bound parameters: the WHERE
      text holds exactly one `?` per parameter the clauses take. */
  lemma WhereSqlMarks(where: seq<Clause>)
    ensures Count(WhereSql(where), '?') == PlaceholderCount(where)
  {
    if where != [] {
      JoinMarks(where);
      NoMarks(" WHERE ");
      CountAppend(" WHERE ", Join(" AND ", ClausesSql(where)), '?');
    }
  }

  // ---------------------------------------------------------------------
  // Selecting rows
  // ---------------------------------------------------------------------

  /** The rows of `rows` that `keep` accepts, in scan order. */
  function Filter(rows: seq<Venue>, keep: Venue -> bool): (r: seq<Venue>)
    ensures |r| <= |rows|
    ensures forall v :: v in r <==> v in rows && keep(v)
  {
    if rows == [] then []
    else (if keep(rows[0]) then [rows[0]] else []) + Filter(rows[1..], keep)
  }

  lemma {:induction false} FilterCongruent(rows: seq<Venue>, p: Venue -> bool, q: Venue -> bool)
    requires forall v :: p(v) == q(v)
    ensures Filter(rows, p) == Filter(rows, q)
  {
    if rows != [] {
      FilterCongruent(rows[1..], p, q);
    }
  }

  lemma {:induction false} FilterKeepsAll(rows: seq<Venue>, p: Venue -> bool)
    requires forall v :: p(v)
    ensures Filter(rows, p) == rows
  {
    if rows != [] {
      FilterKeepsAll(rows[1..], p);
    }
  }

  /** Two predicates that disagree on every row split the table. */
  lemma {:induction false} FilterSplits(rows: seq<Venue>, p: Venue -> bool, q: Venue -> bool)
    requires forall v :: p(v) != q(v)
    ensures |Filter(rows, p)| + |Filter(rows, q)| == |rows|
  {
    if rows != [] {
      FilterSplits(rows[1..], p, q);
    }
  }

  lemma {:induction false} FilterConcat(a: seq<Venue>, b: seq<Venue>, p: Venue -> bool)
    ensures Filter(a + b, p) == Filter(a, p) + Filter(b, p)
  {
    if a != [] {
      assert (a + b)[0] == a[0] && (a + b)[1..] == a[1..] + b;
      FilterConcat(a[1..], b, p);
    } else {
      assert a + b == b;
    }
  }

  /** Filtering twice is filtering once by both predicates. */
  lemma {:induction false} FilterAnd(rows: seq<Venue>, p: Venue -> bool, q: Venue -> bool, both: Venue -> bool)
    requires forall v :: both(v) == (p(v) && q(v))
    ensures Filter(Filter(rows, p), q) == Filter(rows, both)
  {
    if rows != [] {
      var head := if p(rows[0]) then [rows[0]] else [];
      FilterConcat(head, Filter(rows[1..], p), q);
      FilterAnd(rows[1..], p, q, both);
      if p(rows[0]) {
        assert Filter(head, q) == Filter(head[1..], q) + (if q(rows[0]) then [rows[0]] else []) by {
          assert head[1..] == [];
        }
      }
    }
  }

  function Where(rows: seq<Venue>, where: seq<Clause>, args: seq<string>): seq<Venue>
    requires PlaceholderCount(where) == |args|
  {
    Filter(rows, v => Matches(v, where, args))
  }

  // ---------------------------------------------------------------------
  // ORDER BY name COLLATE NOCASE ASC
  // ---------------------------------------------------------------------

  /** NULL sorts first; text compares after ASCII folding. */
  predicate NameLe(a: Option<string>, b: Option<string>) {
    a.None? || (b.Some? && LexLe(Lower(a.value), Lower(b.value)))
  }

  lemma NameLeTotal(a: Option<string>, b: Option<string>)
    ensures NameLe(a, b) || NameLe(b, a)
  {
    if a.Some? && b.Some? {
      LexLeTotal(Lower(a.value), Lower(b.value));
    }
  }

  lemma NameLeTransitive(a: Option<string>, b: Option<string>, c: Option<string>)
    requires NameLe(a, b) && NameLe(b, c)
    ensures NameLe(a, c)
  {
    if a.Some? {
      LexLeTransitive(Lower(a.value), Lower(b.value), Lower(c.value));
    }
  }

  predicate SortedByName(xs: seq<Venue>) {
    forall i, j :: 0 <= i < j < |xs| ==> NameLe(xs[i].name, xs[j].name)
  }

  /** A sorted list splits into a head that sorts before every later row
      and a sorted tail. */
  lemma SortedSplit(s: seq<Venue>)
    requires SortedByName(s) && |s| > 0
    ensures SortedByName(s[1..])
    ensures forall j :: 0 <= j < |s[1..]| ==> NameLe(s[0].name, s[1..][j].name)
  {
    forall j | 0 <= j < |s[1..]| ensures NameLe(s[0].name, s[1..][j].name) {
      assert s[1..][j] == s[j + 1];
    }
  }

  /** A row that sorts before every row of a sorted list can go in front. */
  lemma SortedCons(h: Venue, t: seq<Venue>)
    requires SortedByName(t)
    requires forall j :: 0 <= j < |t| ==> NameLe(h.name, t[j].name)
    ensures SortedByName([h] + t)
  {
    var s := [h] + t;
    forall i, j | 0 <= i < j < |s| ensures NameLe(s[i].name, s[j].name) {
      assert s[j] == t[j - 1];
      if i > 0 {
        assert s[i] == t[i - 1];
      }
    }
  }

  /** A row no later than `x` and every row of `t` is no later than any
      row of a rearrangement of `t` and `x`. */
  lemma LeadsAll(h: Venue, x: Venue, t: seq<Venue>, rest: seq<Venue>)
    requires NameLe(h.name, x.name)
    requires forall j :: 0 <= j < |t| ==> NameLe(h.name, t[j].name)
    requires multiset(rest) == multiset(t) + multiset{x}
    ensures forall j :: 0 <= j < |rest| ==> NameLe(h.name, rest[j].name)
  {
    forall j | 0 <= j < |rest| ensures NameLe(h.name, rest[j].name) {
      assert rest[j] in multiset(rest);
      if rest[j] != x {
        assert rest[j] in multiset(t);
        var k :| 0 <= k < |t| && t[k] == rest[j];
      }
    }
  }

  /** A row no later than the head of a sorted list is no later than any
      of its rows. */
  lemma BeforeHead(x: Venue, s: seq<Venue>)
    requires SortedByName(s)
    requires s == [] || NameLe(x.name, s[0].name)
    ensures forall j :: 0 <= j < |s| ==> NameLe(x.name, s[j].name)
  {
    forall j | 0 <= j < |s| ensures NameLe(x.name, s[j].name) {
      if j > 0 {
        NameLeTransitive(x.name, s[0].name, s[j].name);
      }
    }
  }

  /** Puts `x` before the first row it does not sort after. */
  function InsertByName(x: Venue, s: seq<Venue>): (r: seq<Venue>)
    requires SortedByName(s)
    ensures SortedByName(r)
    ensures multiset(r) == multiset(s) + multiset{x}
  {
    if s == [] || NameLe(x.name, s[0].name) then
      BeforeHead(x, s);
      SortedCons(x, s);
      [x] + s
    else
      SortedSplit(s);
      var rest := InsertByName(x, s[1..]);
      NameLeTotal(x.name, s[0].name);
      LeadsAll(s[0], x, s[1..], rest);
      SortedCons(s[0], rest);
      assert s == [s[0]] + s[1..];
      [s[0]] + rest
  }

  /** The rows in name order; rows with equal keys keep their scan order. */
  function SortByName(xs: seq<Venue>): (r: seq<Venue>)
    ensures SortedByName(r)
    ensures multiset(r) == multiset(xs)
  {
    if xs == [] then []
    else
      assert xs == [xs[0]] + xs[1..];
      InsertByName(xs[0], SortByName(xs[1..]))
  }

  /** SQLite's `LIMIT limit OFFSET offset`: a negative offset counts as 0
      and a negative limit means no limit. */
  function LimitOffset(xs: seq<Venue>, limit: int, offset: int): seq<Venue> {
    var start := if offset < 0 then 0 else if offset > |xs| then |xs| else offset;
    var rest := xs[start..];
    if limit < 0 || limit >= |rest| then rest else rest[..limit]
  }

  /** A LIMIT/OFFSET window is a run of consecutive rows, so it keeps the
      order of the rows it comes from. */
  lemma LimitOffsetWithin(xs: seq<Venue>, limit: int, offset: int)
    ensures forall v :: v in LimitOffset(xs, limit, offset) ==> v in xs
    ensures SortedByName(xs) ==> SortedByName(LimitOffset(xs, limit, offset))
  {
    var start := if offset < 0 then 0 else if offset > |xs| then |xs| else offset;
    var rest := xs[start..];
    var end := if limit < 0 || limit >= |rest| then |xs| else start + limit;
    assert LimitOffset(xs, limit, offset) == xs[start..end];
    SliceWithin(xs, start, end);
  }

  lemma SliceWithin(xs: seq<Venue>, lo: int, hi: int)
    requires 0 <= lo <= hi <= |xs|
    ensures forall v :: v in xs[lo..hi] ==> v in xs
    ensures SortedByName(xs) ==> SortedByName(xs[lo..hi])
  {
    var p := xs[lo..hi];
    assert forall i :: 0 <= i < |p| ==> p[i] == xs[lo + i];
    if SortedByName(xs) {
      forall i, j | 0 <= i < j < |p| ensures NameLe(p[i].name, p[j].name) {
        assert p[i] == xs[lo + i] && p[j] == xs[lo + j];
      }
    }
  }

  /** With a non-negative limit and an offset inside the rows, the window
      is the slice from the offset, cut at the end of the rows. */
  lemma LimitOffsetSlice(xs: seq<Venue>, limit: int, offset: int)
    requires 0 <= limit && 0 <= offset <= |xs|
    ensures offset + limit <= |xs| ==> LimitOffset(xs, limit, offset) == xs[offset..offset + limit]
    ensures offset + limit > |xs| ==> LimitOffset(xs, limit, offset) == xs[offset..]
  {
  }

  // ---------------------------------------------------------------------
  // SQLite's integer SUM
  // ---------------------------------------------------------------------

  const Int64Min: int := -0x8000_0000_0000_0000
  const Int64Max: int := 0x7FFF_FFFF_FFFF_FFFF

  predicate InInt64(x: int) {
    Int64Min <= x <= Int64Max
  }

  /** The non-NULL `foot_traffic` values, in scan order. */
  function FootTraffics(rows: seq<Venue>): (r: seq<int>)
    ensures |r| <= |rows|
  {
    if rows == [] then []
    else (if rows[0].footTraffic.Some? then [rows[0].footTraffic.value] else []) + FootTraffics(rows[1..])
  }

  function Sum(xs: seq<int>): int {
    if xs == [] then 0 else Sum(xs[..|xs| - 1]) + xs[|xs| - 1]
  }

  /** Some running total of `xs`, started from `acc`, leaves the 64-bit range. */
  predicate RunningTotalOverflows(acc: int, xs: seq<int>) {
    exists k :: 0 < k <= |xs| && !InInt64(acc + Sum(xs[..k]))
  }

  /** SQLite's accumulator: add the values one by one in 64-bit
      arithmetic, giving up on the first overflow. */
  function AddAll(acc: int, xs: seq<int>): Option<int>
    decreases |xs|
  {
    if xs == [] then Some(acc)
    else if !InInt64(acc + xs[0]) then None
    else AddAll(acc + xs[0], xs[1..])
  }

  lemma {:induction false} SumCons(x: int, ys: seq<int>)
    ensures Sum([x] + ys) == x + Sum(ys)
    decreases |ys|
  {
    if ys != [] {
      assert ([x] + ys)[..|ys|] == [x] + ys[..|ys| - 1];
      SumCons(x, ys[..|ys| - 1]);
    }
  }

  lemma {:induction false} PrefixSumCons(xs: seq<int>, k: nat)
    requires 0 < k <= |xs|
    ensures Sum(xs[..k]) == xs[0] + Sum(xs[1..][..k - 1])
  {
    assert xs[..k] == [xs[0]] + xs[1..][..k - 1];
    SumCons(xs[0], xs[1..][..k - 1]);
  }

  lemma OverflowAtFirst(acc: int, xs: seq<int>)
    requires xs != [] && !InInt64(acc + xs[0])
    ensures RunningTotalOverflows(acc, xs)
  {
    PrefixSumCons(xs, 1);
    assert xs[1..][..0] == [];
  }

  lemma OverflowLater(acc: int, xs: seq<int>)
    requires xs != [] && InInt64(acc + xs[0])
    ensures RunningTotalOverflows(acc, xs) <==> RunningTotalOverflows(acc + xs[0], xs[1..])
  {
    if RunningTotalOverflows(acc + xs[0], xs[1..]) {
      OverflowInRest(acc, xs);
    }
    if RunningTotalOverflows(acc, xs) {
      OverflowReachesRest(acc, xs);
    }
  }

  lemma OverflowInRest(acc: int, xs: seq<int>)
    requires xs != [] && RunningTotalOverflows(acc + xs[0], xs[1..])
    ensures RunningTotalOverflows(acc, xs)
  {
    var rest := xs[1..];
    var k :| 0 < k <= |rest| && !InInt64(acc + xs[0] + Sum(rest[..k]));
    PrefixSumCons(xs, k + 1);
    assert !InInt64(acc + Sum(xs[..k + 1]));
  }

  lemma OverflowReachesRest(acc: int, xs: seq<int>)
    requires xs != [] && InInt64(acc + xs[0]) && RunningTotalOverflows(acc, xs)
    ensures RunningTotalOverflows(acc + xs[0], xs[1..])
  {
    var rest := xs[1..];
    var k :| 0 < k <= |xs| && !InInt64(acc + Sum(xs[..k]));
    PrefixSumCons(xs, k);
    assert rest[..0] == [];
    assert k > 1 && !InInt64(acc + xs[0] + Sum(rest[..k - 1]));
  }

  /** The accumulator fails exactly when a running total overflows, and
      otherwise returns the mathematical sum. */
  lemma {:induction false} AddAllMeaning(acc: int, xs: seq<int>)
    ensures AddAll(acc, xs) == if RunningTotalOverflows(acc, xs) then None else Some(acc + Sum(xs))
    decreases |xs|
  {
    if xs != [] {
      if !InInt64(acc + xs[0]) {
        OverflowAtFirst(acc, xs);
      } else {
        AddAllMeaning(acc + xs[0], xs[1..]);
        OverflowLater(acc, xs);
        assert xs == [xs[0]] + xs[1..];
        SumCons(xs[0], xs[1..]);
      }
    }
  }

  datatype SqlError =
    | WrongBindingCount    // "Incorrect number of bindings supplied"
    | UnsupportedBinding   // a binding this model gives no meaning to
    | IntegerOverflow      // SUM() overflowed a 64-bit integer
    | BindingOverflow      // "Python int too large to convert to SQLite INTEGER"

  /** `SUM(foot_traffic)`: NULL when no row has a value, an error when a
      running total overflows. */
  function SqlSum(rows: seq<Venue>): Result<Option<int>, SqlError> {
    var xs := FootTraffics(rows);
    if xs == [] then Success(None)
    else match AddAll(0, xs)
      case None => Failure(IntegerOverflow)
      case Some(s) => Success(Some(s))
  }

  // ---------------------------------------------------------------------
  // Statements with bound parameters
  // ---------------------------------------------------------------------

  /** A value bound to a `?`: Python `str` binds as TEXT, `int` as INTEGER. */
  datatype SqlValue = SqlText(text: string) | SqlInt(number: int)

  predicate AllText(args: seq<SqlValue>) {
    forall i :: 0 <= i < |args| ==> args[i].SqlText?
  }

  function Texts(args: seq<SqlValue>): (r: seq<string>)
    requires AllText(args)
    ensures |r| == |args|
  {
    seq(|args|, i requires 0 <= i < |args| => args[i].text)
  }

  function TextValues(ps: seq<string>): (r: seq<SqlValue>)
    ensures AllText(r) && Texts(r) == ps
  {
    seq(|ps|, i requires 0 <= i < |ps| => SqlText(ps[i]))
  }

  /** `SELECT COUNT(*) FROM venues <WhereSql(where)>` run with `args`. */
  function CountQuery(rows: seq<Venue>, where: seq<Clause>, args: seq<SqlValue>): Result<nat, SqlError> {
    if |args| != PlaceholderCount(where) then Failure(WrongBindingCount)
    else if !AllText(args) then Failure(UnsupportedBinding)
    else Success(|Where(rows, where, Texts(args))|)
  }

  /** `SELECT ... FROM venues <WhereSql(where)> ORDER BY name COLLATE NOCASE
      ASC LIMIT ? OFFSET ?` run with `args`: the WHERE placeholders come
      first, then LIMIT, then OFFSET. An integer outside 64 bits cannot be
      bound and raises before the statement runs. */
  function PageQuery(rows: seq<Venue>, where: seq<Clause>, args: seq<SqlValue>): Result<seq<Venue>, SqlError> {
    var k := PlaceholderCount(where);
    if |args| != k + 2 then Failure(WrongBindingCount)
    else if !AllText(args[..k]) || !args[k].SqlInt? || !args[k + 1].SqlInt? then Failure(UnsupportedBinding)
    else if !InInt64(args[k].number) || !InInt64(args[k + 1].number) then Failure(BindingOverflow)
    else Success(LimitOffset(SortByName(Where(rows, where, Texts(args[..k]))), args[k].number, args[k + 1].number))
  }

  /** `SELECT COUNT(*), COALESCE(SUM(foot_traffic),0) FROM venues
      <WhereSql(where)>` run with `args`. */
  function SummaryQuery(rows: seq<Venue>, where: seq<Clause>, args: seq<SqlValue>): Result<(nat, int), SqlError> {
    if |args| != PlaceholderCount(where) then Failure(WrongBindingCount)
    else if !AllText(args) then Failure(UnsupportedBinding)
    else
      var matched := Where(rows, where, Texts(args));
      match SqlSum(matched)
      case Failure(e) => Failure(e)
      case Success(s) => Success((|matched|, if s.Some? then s.value else 0))
  }

  /** Binding the filter parameters followed by two integers runs the page
      query with exactly those integers as LIMIT and OFFSET, whatever the
      filters were: the paging values can never be taken for a filter
      value. The statement fails only when one of them does not fit in 64
      bits. */
  lemma PagingBindsAfterFilters(rows: seq<Venue>, where: seq<Clause>, ps: seq<string>, limit: int, offset: int)
    requires PlaceholderCount(where) == |ps|
    ensures PageQuery(rows, where, TextValues(ps) + [SqlInt(limit), SqlInt(offset)])
            == if InInt64(limit) && InInt64(offset)
               then Success(LimitOffset(SortByName(Where(rows, where, ps)), limit, offset))
               else Failure(BindingOverflow)
  {
    var args := TextValues(ps) + [SqlInt(limit), SqlInt(offset)];
    assert args[..|ps|] == TextValues(ps);
  }

  /** Binding the filter parameters to the count and summary statements
      always succeeds, short of a SUM overflow. */
  lemma FilterBindingsAccepted(rows: seq<Venue>, where: seq<Clause>, ps: seq<string>)
    requires PlaceholderCount(where) == |ps|
    ensures CountQuery(rows, where, TextValues(ps)) == Success(|Where(rows, where, ps)|)
    ensures SummaryQuery(rows, where, TextValues(ps)).Success?
            <==> !RunningTotalOverflows(0, FootTraffics(Where(rows, where, ps)))
  {
    var xs := FootTraffics(Where(rows, where, ps));
    AddAllMeaning(0, xs);
    if xs == [] {
      assert !RunningTotalOverflows(0, xs);
    }
  }
}
