/** The WHERE builders of `list_venues` and `venues_summary`. Each of the
    six optional request filters that is set adds one conjunct and, unless
    it is the open/closed test, one bound parameter; the two endpoints
    differ only in how chain, category and DMA are compared. */
module Filters {
  import opened Wrappers
  import opened Strings
  import opened SqlLike
  import opened Store

  /** The optional query-string filters of both endpoints; a parameter the
      request leaves out is None. */
  datatype FilterArgs = FilterArgs(
    chain: Option<string>,
    category: Option<string>,
    dma: Option<string>,
    city: Option<string>,
    state: Option<string>,
    openStatus: Option<string>)

  /** `v and v.lower() != 'all'`: set, non-empty and not "all" in any case. */
  predicate Active(v: Option<string>) {
    v.Some? && v.value != "" && Lower(v.value) != "all"
  }

  predicate WantsOpen(s: Option<string>) {
    s.Some? && s.value != "" && Lower(s.value) == "open"
  }

  predicate WantsClosed(s: Option<string>) {
    s.Some? && s.value != "" && Lower(s.value) == "closed"
  }

  /** The filter a column is constrained by. */
  function FilterValue(f: FilterArgs, col: Column): Option<string> {
    match col
    case ChainName => f.chain
    case SubCategory => f.category
    case Dma => f.dma
    case City => f.city
    case StateName => f.state
  }

  /** The columns the list endpoint compares by substring. */
  predicate IsTextSearch(col: Column) {
    col == ChainName || col == SubCategory || col == Dma
  }

  /** The parameter bound to a substring clause. */
  function LikeArg(v: string): string {
    "%" + v + "%"
  }

  predicate StatusWants(s: Option<string>, v: Venue) {
    (WantsOpen(s) ==> IsOpen(v)) && (WantsClosed(s) ==> !IsOpen(v))
  }

  /** What the list endpoint asks of one column of a row. */
  predicate ListFieldWants(f: FilterArgs, v: Venue, col: Column) {
    var fv := FilterValue(f, col);
    var cv := ColumnValue(v, col);
    Active(fv) ==>
      if IsTextSearch(col) then cv.Some? && Like(cv.value, LikeArg(fv.value))
      else cv == fv
  }

  /** The rows `list_venues` selects: chain, category and DMA match as
      case-insensitive LIKE '%value%' patterns, city and state exactly. */
  predicate ListWants(f: FilterArgs, v: Venue) {
    && ListFieldWants(f, v, ChainName)
    && ListFieldWants(f, v, SubCategory)
    && ListFieldWants(f, v, Dma)
    && ListFieldWants(f, v, City)
    && ListFieldWants(f, v, StateName)
    && StatusWants(f.openStatus, v)
  }

  /** What the summary endpoint asks of one column of a row. */
  predicate SummaryFieldWants(f: FilterArgs, v: Venue, col: Column) {
    Active(FilterValue(f, col)) ==> ColumnValue(v, col) == FilterValue(f, col)
  }

  /** The rows `venues_summary` counts: every set filter compares exactly. */
  predicate SummaryWants(f: FilterArgs, v: Venue) {
    && SummaryFieldWants(f, v, ChainName)
    && SummaryFieldWants(f, v, SubCategory)
    && SummaryFieldWants(f, v, Dma)
    && SummaryFieldWants(f, v, City)
    && SummaryFieldWants(f, v, StateName)
    && StatusWants(f.openStatus, v)
  }

  function Indicator(b: bool): nat {
    if b then 1 else 0
  }

  /** How many of the five value filters are set. */
  function ActiveCount(f: FilterArgs): nat {
    Indicator(Active(f.chain)) + Indicator(Active(f.category)) + Indicator(Active(f.dma))
    + Indicator(Active(f.city)) + Indicator(Active(f.state))
  }

  /** No filter constrains anything. */
  predicate Unconstrained(f: FilterArgs) {
    ActiveCount(f) == 0 && !WantsOpen(f.openStatus) && !WantsClosed(f.openStatus)
  }

  /** The parameter bound to a value clause: the LIKE pattern `%v%` for a
      substring clause, the value itself for an equality clause. */
  function BoundArg(c: Clause, v: string): string {
    if c.LikeNoCase? then LikeArg(v) else v
  }

  /** The argument clause `c` takes under filters `f`: the bound parameter
      when the filter of its column is set, None when `c` is not added. */
  function ArgFor(f: FilterArgs, c: Clause): Option<string> {
    if (c.LikeNoCase? || c.Equals?) && Active(FilterValue(f, c.col))
    then Some(BoundArg(c, FilterValue(f, c.col).value))
    else None
  }

  /** What one `if <filter> ...` block appends to `where` ... */
  function Piece(f: FilterArgs, c: Clause): seq<Clause> {
    if ArgFor(f, c).Some? then [c] else []
  }

  /** ... and to `params`. */
  function PieceArgs(f: FilterArgs, c: Clause): seq<string> {
    if ArgFor(f, c).Some? then [ArgFor(f, c).value] else []
  }

  /** The clauses the value filters contribute, in the order of `cs`. */
  function ValueClauses(f: FilterArgs, cs: seq<Clause>): seq<Clause> {
    if cs == [] then [] else ValueClauses(f, cs[..|cs| - 1]) + Piece(f, cs[|cs| - 1])
  }

  function ValueArgs(f: FilterArgs, cs: seq<Clause>): seq<string> {
    if cs == [] then [] else ValueArgs(f, cs[..|cs| - 1]) + PieceArgs(f, cs[|cs| - 1])
  }

  /** The test the open/closed filter contributes, if any. */
  function StatusPiece(s: Option<string>): seq<Clause> {
    if WantsOpen(s) then [OpenTest] else if WantsClosed(s) then [ClosedTest] else []
  }

  /** The value clauses of `list_venues`, in the order the code adds them. */
  const ListColumns: seq<Clause> :=
    [LikeNoCase(ChainName), LikeNoCase(SubCategory), LikeNoCase(Dma), Equals(City), Equals(StateName)]

  /** The value clauses of `venues_summary`. */
  const SummaryColumns: seq<Clause> :=
    [Equals(ChainName), Equals(SubCategory), Equals(Dma), Equals(City), Equals(StateName)]

  /** The whole WHERE list an endpoint builds from `f`. */
  function BuiltClauses(f: FilterArgs, cs: seq<Clause>): seq<Clause> {
    ValueClauses(f, cs) + StatusPiece(f.openStatus)
  }

  /** A value clause is wanted when its filter is unset or the row
      satisfies it with the filter's parameter. */
  predicate ClauseWanted(f: FilterArgs, c: Clause, v: Venue) {
    ArgFor(f, c).Some? ==> Arity(c) == 1 && ClauseHolds(v, c, [ArgFor(f, c).value])
  }

  /** Each parameter is the one its clause's filter gives, so the list of
      parameters lines up with the clauses that take one. */
  lemma {:induction false} ValueArgsLineUp(f: FilterArgs, cs: seq<Clause>)
    ensures |ValueClauses(f, cs)| == |ValueArgs(f, cs)| == PlaceholderCount(ValueClauses(f, cs))
    ensures forall i :: 0 <= i < |ValueArgs(f, cs)| ==>
      ArgFor(f, ValueClauses(f, cs)[i]) == Some(ValueArgs(f, cs)[i])
  {
    if cs != [] {
      var init, c := cs[..|cs| - 1], cs[|cs| - 1];
      var vc, va := ValueClauses(f, cs), ValueArgs(f, cs);
      var rc, ra := ValueClauses(f, init), ValueArgs(f, init);
      ValueArgsLineUp(f, init);
      PlaceholderCountConcat(rc, Piece(f, c));
      if ArgFor(f, c).Some? {
        assert vc == rc + [c] && va == ra + [ArgFor(f, c).value];
        assert PlaceholderCount([c]) == Arity(c) by {
          assert [c][..0] == [];
        }
        forall i | 0 <= i < |va| ensures ArgFor(f, vc[i]) == Some(va[i]) {
          if i < |ra| {
            assert vc[i] == rc[i] && va[i] == ra[i];
          }
        }
      } else {
        assert vc == rc + [] == rc && va == ra + [] == ra;
      }
    }
  }

  /** One filter's clause keeps exactly the rows that filter wants. */
  lemma PieceMeaning(f: FilterArgs, c: Clause, v: Venue)
    ensures PlaceholderCount(Piece(f, c)) == |PieceArgs(f, c)|
    ensures Matches(v, Piece(f, c), PieceArgs(f, c)) <==> ClauseWanted(f, c, v)
  {
    var p, pa := Piece(f, c), PieceArgs(f, c);
    if ArgFor(f, c).Some? {
      assert p[..0] == [] && pa[..0] == [] && pa[0..] == pa;
    }
  }

  /** Every clause of `cs` is wanted when every clause but the last is and
      the last is. */
  lemma AllWantedSplit(f: FilterArgs, cs: seq<Clause>, init: seq<Clause>, c: Clause, v: Venue)
    requires cs != [] && init == cs[..|cs| - 1] && c == cs[|cs| - 1]
    ensures (forall i :: 0 <= i < |cs| ==> ClauseWanted(f, cs[i], v)) <==>
      (forall i :: 0 <= i < |init| ==> ClauseWanted(f, init[i], v)) && ClauseWanted(f, c, v)
  {
    assert cs[|init|] == c;
    assert forall i :: 0 <= i < |init| ==> cs[i] == init[i];
  }

  /** The value clauses keep exactly the rows every set filter wants. */
  lemma {:induction false} ValueClausesMeaning(f: FilterArgs, cs: seq<Clause>, v: Venue)
    ensures PlaceholderCount(ValueClauses(f, cs)) == |ValueArgs(f, cs)|
    ensures Matches(v, ValueClauses(f, cs), ValueArgs(f, cs)) <==>
      forall i :: 0 <= i < |cs| ==> ClauseWanted(f, cs[i], v)
  {
    ValueArgsLineUp(f, cs);
    if cs != [] {
      var init, c := cs[..|cs| - 1], cs[|cs| - 1];
      assert ValueClauses(f, cs) == ValueClauses(f, init) + Piece(f, c);
      assert ValueArgs(f, cs) == ValueArgs(f, init) + PieceArgs(f, c);
      ValueClausesMeaning(f, init, v);
      PieceMeaning(f, c, v);
      MatchesConcat(v, ValueClauses(f, init), ValueArgs(f, init), Piece(f, c), PieceArgs(f, c));
      AllWantedSplit(f, cs, init, c, v);
    }
  }

  /** The open/closed test takes no parameter. */
  lemma StatusPieceCount(s: Option<string>)
    ensures PlaceholderCount(StatusPiece(s)) == 0
  {
    var p := StatusPiece(s);
    if p != [] {
      assert p[..0] == [];
    }
  }

  /** The open/closed test takes no parameter and keeps exactly the rows
      the status filter wants. */
  lemma StatusPieceMeaning(s: Option<string>, v: Venue)
    ensures PlaceholderCount(StatusPiece(s)) == 0
    ensures Matches(v, StatusPiece(s), []) <==> StatusWants(s, v)
  {
    StatusPieceCount(s);
    var p := StatusPiece(s);
    if p != [] {
      assert p[..0] == [];
      assert WantsOpen(s) ==> !WantsClosed(s);
    }
  }

  /** Value clauses then the status test: the rows both keep. */
  lemma BuiltClausesMeaning(f: FilterArgs, cs: seq<Clause>, v: Venue)
    ensures PlaceholderCount(BuiltClauses(f, cs)) == |ValueArgs(f, cs)|
    ensures Matches(v, BuiltClauses(f, cs), ValueArgs(f, cs)) <==>
      (forall i :: 0 <= i < |cs| ==> ClauseWanted(f, cs[i], v)) && StatusWants(f.openStatus, v)
  {
    ValueClausesMeaning(f, cs, v);
    StatusPieceCount(f.openStatus);
    StatusPieceMeaning(f.openStatus, v);
    MatchesConcat(v, ValueClauses(f, cs), ValueArgs(f, cs), StatusPiece(f.openStatus), []);
    assert ValueArgs(f, cs) + [] == ValueArgs(f, cs);
  }

  /** A substring clause is what the list endpoint asks of its column. */
  lemma LikeClauseWanted(f: FilterArgs, col: Column, v: Venue)
    requires IsTextSearch(col)
    ensures ClauseWanted(f, LikeNoCase(col), v) <==> ListFieldWants(f, v, col)
  {
  }

  /** An equality clause is what the summary endpoint asks of its column,
      and what the list endpoint asks of city and state. */
  lemma EqualsClauseWanted(f: FilterArgs, col: Column, v: Venue)
    ensures ClauseWanted(f, Equals(col), v) <==> SummaryFieldWants(f, v, col)
    ensures !IsTextSearch(col) ==> (SummaryFieldWants(f, v, col) <==> ListFieldWants(f, v, col))
  {
  }

  /** A statement about every clause of a five-clause list is a statement
      about each of the five. */
  lemma AllFiveWanted(f: FilterArgs, cs: seq<Clause>, v: Venue)
    requires |cs| == 5
    ensures (forall i :: 0 <= i < |cs| ==> ClauseWanted(f, cs[i], v)) <==>
      ClauseWanted(f, cs[0], v) && ClauseWanted(f, cs[1], v) && ClauseWanted(f, cs[2], v)
      && ClauseWanted(f, cs[3], v) && ClauseWanted(f, cs[4], v)
  {
  }

  /** The clauses and parameters an endpoint builds agree in number. */
  lemma BuiltClausesWellFormed(f: FilterArgs, cs: seq<Clause>)
    ensures PlaceholderCount(BuiltClauses(f, cs)) == |ValueArgs(f, cs)|
  {
    ValueArgsLineUp(f, cs);
    StatusPieceCount(f.openStatus);
    PlaceholderCountConcat(ValueClauses(f, cs), StatusPiece(f.openStatus));
  }

  lemma ListVenueMeaning(f: FilterArgs, v: Venue)
    ensures PlaceholderCount(BuiltClauses(f, ListColumns)) == |ValueArgs(f, ListColumns)|
    ensures Matches(v, BuiltClauses(f, ListColumns), ValueArgs(f, ListColumns)) <==> ListWants(f, v)
  {
    BuiltClausesMeaning(f, ListColumns, v);
    AllFiveWanted(f, ListColumns, v);
    LikeClauseWanted(f, ChainName, v);
    LikeClauseWanted(f, SubCategory, v);
    LikeClauseWanted(f, Dma, v);
    EqualsClauseWanted(f, City, v);
    EqualsClauseWanted(f, StateName, v);
  }

  lemma SummaryVenueMeaning(f: FilterArgs, v: Venue)
    ensures PlaceholderCount(BuiltClauses(f, SummaryColumns)) == |ValueArgs(f, SummaryColumns)|
    ensures Matches(v, BuiltClauses(f, SummaryColumns), ValueArgs(f, SummaryColumns)) <==> SummaryWants(f, v)
  {
    BuiltClausesMeaning(f, SummaryColumns, v);
    AllFiveWanted(f, SummaryColumns, v);
    EqualsClauseWanted(f, ChainName, v);
    EqualsClauseWanted(f, SubCategory, v);
    EqualsClauseWanted(f, Dma, v);
    EqualsClauseWanted(f, City, v);
    EqualsClauseWanted(f, StateName, v);
  }

  /** The list endpoint's clauses keep exactly the rows `ListWants`
      describes. */
  lemma ListClausesMeaning(f: FilterArgs)
    ensures PlaceholderCount(BuiltClauses(f, ListColumns)) == |ValueArgs(f, ListColumns)|
    ensures forall v :: Matches(v, BuiltClauses(f, ListColumns), ValueArgs(f, ListColumns)) <==> ListWants(f, v)
  {
    BuiltClausesWellFormed(f, ListColumns);
    forall v ensures Matches(v, BuiltClauses(f, ListColumns), ValueArgs(f, ListColumns)) <==> ListWants(f, v) {
      ListVenueMeaning(f, v);
    }
  }

  /** The summary endpoint's clauses keep exactly the rows `SummaryWants`
      describes. */
  lemma SummaryClausesMeaning(f: FilterArgs)
    ensures PlaceholderCount(BuiltClauses(f, SummaryColumns)) == |ValueArgs(f, SummaryColumns)|
    ensures forall v :: Matches(v, BuiltClauses(f, SummaryColumns), ValueArgs(f, SummaryColumns)) <==> SummaryWants(f, v)
  {
    BuiltClausesWellFormed(f, SummaryColumns);
    forall v ensures Matches(v, BuiltClauses(f, SummaryColumns), ValueArgs(f, SummaryColumns)) <==> SummaryWants(f, v) {
      SummaryVenueMeaning(f, v);
    }
  }

  /** A value clause contributes one clause and one parameter exactly when
      the filter of its column is set. */
  lemma PieceSize(f: FilterArgs, c: Clause)
    requires c.LikeNoCase? || c.Equals?
    ensures |Piece(f, c)| == |PieceArgs(f, c)| == Indicator(Active(FilterValue(f, c.col)))
  {
  }

  /** One parameter per set value filter, and no clause at all exactly
      when no filter is set. */
  lemma BuiltClausesCount(f: FilterArgs, cs: seq<Clause>)
    requires cs == ListColumns || cs == SummaryColumns
    ensures |ValueArgs(f, cs)| == ActiveCount(f)
    ensures BuiltClauses(f, cs) == [] <==> Unconstrained(f)
  {
    assert |cs| == 5 && cs[0].col == ChainName && cs[1].col == SubCategory && cs[2].col == Dma
      && cs[3].col == City && cs[4].col == StateName;
    assert forall i :: 0 <= i < 5 ==> cs[i].LikeNoCase? || cs[i].Equals?;
    FiveColumnsCount(f, cs);
  }

  lemma FiveColumnsCount(f: FilterArgs, cs: seq<Clause>)
    requires |cs| == 5 && forall i :: 0 <= i < 5 ==> cs[i].LikeNoCase? || cs[i].Equals?
    requires cs[0].col == ChainName && cs[1].col == SubCategory && cs[2].col == Dma
      && cs[3].col == City && cs[4].col == StateName
    ensures |ValueArgs(f, cs)| == ActiveCount(f)
    ensures BuiltClauses(f, cs) == [] <==> Unconstrained(f)
  {
    FiveValueClauses(f, cs);
    PieceSize(f, cs[0]);
    PieceSize(f, cs[1]);
    PieceSize(f, cs[2]);
    PieceSize(f, cs[3]);
    PieceSize(f, cs[4]);
    assert |StatusPiece(f.openStatus)| == 0 <==> !WantsOpen(f.openStatus) && !WantsClosed(f.openStatus);
    assert |BuiltClauses(f, cs)| == |ValueClauses(f, cs)| + |StatusPiece(f.openStatus)|;
  }

  /** Unrolls the clauses of a five-filter list, the shape the code
      writes out one `if` at a time. */
  lemma FiveValueClauses(f: FilterArgs, cs: seq<Clause>)
    requires |cs| == 5
    ensures ValueClauses(f, cs) ==
      [] + Piece(f, cs[0]) + Piece(f, cs[1]) + Piece(f, cs[2]) + Piece(f, cs[3]) + Piece(f, cs[4])
    ensures ValueArgs(f, cs) ==
      [] + PieceArgs(f, cs[0]) + PieceArgs(f, cs[1]) + PieceArgs(f, cs[2]) + PieceArgs(f, cs[3]) + PieceArgs(f, cs[4])
  {
    var c1, c2, c3, c4 := cs[..1], cs[..2], cs[..3], cs[..4];
    assert c1[..0] == [] && c2[..1] == c1 && c3[..2] == c2 && c4[..3] == c3 && cs[..4] == c4;
    assert c1[0] == cs[0] && c2[1] == cs[1] && c3[2] == cs[2] && c4[3] == cs[3];
    assert ValueClauses(f, c1) == [] + Piece(f, cs[0]);
    assert ValueClauses(f, c2) == ValueClauses(f, c1) + Piece(f, cs[1]);
    assert ValueClauses(f, c3) == ValueClauses(f, c2) + Piece(f, cs[2]);
    assert ValueClauses(f, c4) == ValueClauses(f, c3) + Piece(f, cs[3]);
    assert ValueArgs(f, c1) == [] + PieceArgs(f, cs[0]);
    assert ValueArgs(f, c2) == ValueArgs(f, c1) + PieceArgs(f, cs[1]);
    assert ValueArgs(f, c3) == ValueArgs(f, c2) + PieceArgs(f, cs[2]);
    assert ValueArgs(f, c4) == ValueArgs(f, c3) + PieceArgs(f, cs[3]);
  }

  /** The clauses and parameters appended one filter at a time, in the
      order of `cs` and then the status test, are the built ones. */
  lemma BuiltFromPieces(f: FilterArgs, cs: seq<Clause>, where: seq<Clause>, params: seq<string>)
    requires |cs| == 5
    requires where == [] + Piece(f, cs[0]) + Piece(f, cs[1]) + Piece(f, cs[2]) + Piece(f, cs[3])
      + Piece(f, cs[4]) + StatusPiece(f.openStatus)
    requires params == [] + PieceArgs(f, cs[0]) + PieceArgs(f, cs[1]) + PieceArgs(f, cs[2])
      + PieceArgs(f, cs[3]) + PieceArgs(f, cs[4])
    ensures where == BuiltClauses(f, cs) && params == ValueArgs(f, cs)
  {
    FiveValueClauses(f, cs);
  }

  /** The block both endpoints repeat for each value filter: when the
      filter of `c`'s column is set, append `c` to `where` and its
      parameter to `params`. */
  method AppendIfSet(f: FilterArgs, where: seq<Clause>, params: seq<string>, c: Clause)
    returns (where': seq<Clause>, params': seq<string>)
    requires c.LikeNoCase? || c.Equals?
    ensures where' == where + Piece(f, c) && params' == params + PieceArgs(f, c)
  {
    where', params' := where, params;
    var value := FilterValue(f, c.col);
    if value.Some? && value.value != "" && Lower(value.value) != "all" {
      where' := where + [c];
      params' := params + [BoundArg(c, value.value)];
    }
  }
  /** Appends the open or closed test that `open_status` asks for, if any. */
  method AppendStatus(where: seq<Clause>, status: Option<string>) returns (where': seq<Clause>)
    ensures where' == where + StatusPiece(status)
  {
    where' := where;
    if status.Some? && status.value != "" {
      if Lower(status.value) == "open" {
        where' := where + [OpenTest];
      } else if Lower(status.value) == "closed" {
        where' := where + [ClosedTest];
      }
    }
  }

  /** The lines of `list_venues` that build `where` and `params`: the
      clauses keep exactly the rows `ListWants` describes, each parameter
      is the one its clause's filter gives, and there is one parameter per
      set value filter. */
  method BuildListFilter(f: FilterArgs) returns (where: seq<Clause>, params: seq<string>)
    ensures where == BuiltClauses(f, ListColumns) && params == ValueArgs(f, ListColumns)
    ensures PlaceholderCount(where) == |params| == ActiveCount(f)
    ensures forall v :: Matches(v, where, params) <==> ListWants(f, v)
    ensures where == [] <==> Unconstrained(f)
  {
    where, params := [], [];
    where, params := AppendIfSet(f, where, params, LikeNoCase(ChainName));
    where, params := AppendIfSet(f, where, params, LikeNoCase(SubCategory));
    where, params := AppendIfSet(f, where, params, LikeNoCase(Dma));
    where, params := AppendIfSet(f, where, params, Equals(City));
    where, params := AppendIfSet(f, where, params, Equals(StateName));
    where := AppendStatus(where, f.openStatus);
    BuiltFromPieces(f, ListColumns, where, params);
    ListClausesMeaning(f);
    BuiltClausesCount(f, ListColumns);
  }

  /** The lines of `venues_summary` that build `where` and `params`: as
      the list endpoint, with exact comparisons throughout. */
  method BuildSummaryFilter(f: FilterArgs) returns (where: seq<Clause>, params: seq<string>)
    ensures where == BuiltClauses(f, SummaryColumns) && params == ValueArgs(f, SummaryColumns)
    ensures PlaceholderCount(where) == |params| == ActiveCount(f)
    ensures forall v :: Matches(v, where, params) <==> SummaryWants(f, v)
    ensures where == [] <==> Unconstrained(f)
  {
    where, params := [], [];
    where, params := AppendIfSet(f, where, params, Equals(ChainName));
    where, params := AppendIfSet(f, where, params, Equals(SubCategory));
    where, params := AppendIfSet(f, where, params, Equals(Dma));
    where, params := AppendIfSet(f, where, params, Equals(City));
    where, params := AppendIfSet(f, where, params, Equals(StateName));
    where := AppendStatus(where, f.openStatus);
    BuiltFromPieces(f, SummaryColumns, where, params);
    SummaryClausesMeaning(f);
    BuiltClausesCount(f, SummaryColumns);
  }

  // ---------------------------------------------------------------------
  // What the filters mean
  // ---------------------------------------------------------------------

  /** A row whose column is NULL never satisfies a filter set on that
      column, in either endpoint. */
  lemma NullNeverMatches(f: FilterArgs, v: Venue, col: Column)
    requires Active(FilterValue(f, col)) && ColumnValue(v, col).None?
    ensures !ListWants(f, v) && !SummaryWants(f, v)
  {
    assert !ListFieldWants(f, v, col) && !SummaryFieldWants(f, v, col);
  }

  /** For a value without LIKE wildcards, the list endpoint's chain,
      category and DMA filters are case-insensitive substring tests, and a
      NULL column never matches. */
  lemma ListTextFilterIsSubstring(f: FilterArgs, v: Venue, col: Column)
    requires IsTextSearch(col) && Active(FilterValue(f, col))
    requires NoWildcards(FilterValue(f, col).value)
    ensures ListFieldWants(f, v, col) <==>
      ColumnValue(v, col).Some? && ContainsNoCase(ColumnValue(v, col).value, FilterValue(f, col).value)
  {
    if ColumnValue(v, col).Some? {
      ContainsPattern(ColumnValue(v, col).value, FilterValue(f, col).value);
    }
  }

  /** "open" and "closed", in any letter case, split every venue: each
      satisfies exactly one of the two. */
  lemma OpenClosedComplementary(openWord: string, closedWord: string, v: Venue)
    requires Lower(openWord) == "open" && Lower(closedWord) == "closed"
    ensures StatusWants(Some(openWord), v) != StatusWants(Some(closedWord), v)
  {
    assert openWord != "" by { assert |Lower(openWord)| == 4; }
    assert closedWord != "" by { assert |Lower(closedWord)| == 6; }
    assert Lower(openWord) != "closed";
    assert Lower(closedWord) != "open";
  }

  /** Any other status word constrains nothing. */
  lemma OtherStatusIgnored(s: Option<string>, v: Venue)
    requires s.None? || (Lower(s.value) != "open" && Lower(s.value) != "closed")
    ensures StatusWants(s, v)
  {
  }

  /** The two endpoints select the same rows when chain, category and DMA
      are not set. */
  lemma ListAndSummaryAgree(f: FilterArgs, v: Venue)
    requires !Active(f.chain) && !Active(f.category) && !Active(f.dma)
    ensures ListWants(f, v) <==> SummaryWants(f, v)
  {
  }

  /** With a chain filter the two endpoints disagree: the list endpoint
      matches "tar" inside "Target", the summary endpoint does not. */
  lemma ListAndSummaryDiffer(v: Venue)
    requires v.chainName == Some("Target")
    ensures ListWants(FilterArgs(Some("tar"), None, None, None, None, None), v)
    ensures !SummaryWants(FilterArgs(Some("tar"), None, None, None, None, None), v)
  {
    var f := FilterArgs(Some("tar"), None, None, None, None, None);
    assert Lower("tar") == "tar";
    assert MatchesAt("Target", "tar", 0) by {
      assert "Target"[0..3] == "Tar";
      assert Lower("Tar") == "tar";
    }
    ListTextFilterIsSubstring(f, v, ChainName);
  }
}
