/** The CSV loader's row normaliser: a row read by Python's `csv.DictReader`
    (header names to cell text) becomes the 24 values of one INSERT into
    `venues`, in `FIELD_ORDER`. Keys and text values are stripped of
    whitespace, `foot_traffic` is parsed as an integer, the four measures
    as floats, and empty text becomes NULL. */
module Loader {
  import opened Wrappers
  import opened Strings
  import opened Store

  /** The columns an INSERT fills, in order. */
  const FieldOrder: seq<string> := [
    "entity_id", "entity_type", "name", "foot_traffic", "sales", "avg_dwell_time_min", "area_sqft",
    "ft_per_sqft", "geolocation", "country", "state_code", "state_name", "city", "postal_code",
    "formatted_city", "street_address", "sub_category", "dma", "cbsa", "chain_id", "chain_name",
    "store_id", "date_opened", "date_closed"]

  /** The columns parsed as floats. */
  const RealFields: seq<string> := ["sales", "avg_dwell_time_min", "area_sqft", "ft_per_sqft"]

  /** A value of a DictReader row: None when the line has fewer cells than
      the header, a list of the surplus cells under the None key when it
      has more, text otherwise. */
  datatype Raw = RawNone | RawStr(s: string) | RawList(items: seq<string>)

  /** A DictReader row in insertion order; a None key is the key of the
      surplus cells. */
  type RawRow = seq<(Option<string>, Raw)>

  /** One value handed to the INSERT. */
  datatype Cell = NullCell | TextCell(text: string) | IntCell(number: int) | RealCell(x: real) | ListCell(items: seq<string>)

  /** `None.strip()` raises AttributeError, which aborts the row. */
  datatype LoadError = NoneKey

  // ---------------------------------------------------------------------
  // Python's int() on a str
  // ---------------------------------------------------------------------

  /** CPython's default limit on the digits `int()` converts from text. */
  const MaxStrDigits: nat := 4300

  predicate IsDigit(c: char) {
    '0' <= c <= '9'
  }

  /** Decimal digits with single underscores between digits. */
  predicate ValidDigitBody(b: string) {
    |b| > 0 && IsDigit(b[0])
    && forall i {:trigger b[i]} :: 0 <= i < |b| ==> IsDigit(b[i]) || (b[i] == '_' && i + 1 < |b| && IsDigit(b[i + 1]))
  }

  function DigitCount(b: string): nat {
    if b == [] then 0 else DigitCount(b[..|b| - 1]) + (if IsDigit(b[|b| - 1]) then 1 else 0)
  }

  /** The number the digits of `b` spell, underscores skipped. */
  function DigitsValue(b: string): nat {
    if b == [] then 0
    else if IsDigit(b[|b| - 1]) then DigitsValue(b[..|b| - 1]) * 10 + (b[|b| - 1] as int - '0' as int)
    else DigitsValue(b[..|b| - 1])
  }

  /** The whitespace `int()` skips around a number: the characters
      `str.isspace()` accepts except the ASCII separators U+001C to U+001F,
      which `int()` reads as part of the text (and so rejects). */
  predicate IsIntSpace(c: char) {
    IsSpace(c) && !('\U{1C}' <= c <= '\U{1F}')
  }

  /** `s` without the leading whitespace `int()` skips. */
  function IntStripLeft(s: string): string {
    if |s| > 0 && IsIntSpace(s[0]) then IntStripLeft(s[1..]) else s
  }

  /** What is left after the leading whitespace does not start with it. */
  lemma {:induction false} IntStripLeftStart(s: string)
    ensures IntStripLeft(s) == [] || !IsIntSpace(IntStripLeft(s)[0])
  {
    if |s| > 0 && IsIntSpace(s[0]) {
      IntStripLeftStart(s[1..]);
    }
  }

  /** `s` without the trailing whitespace `int()` skips. */
  function IntStripRight(s: string): string {
    if |s| > 0 && IsIntSpace(s[|s| - 1]) then IntStripRight(s[..|s| - 1]) else s
  }

  /** What is left after the trailing whitespace is a prefix of `s` that
      does not end with it. */
  lemma {:induction false} IntStripRightEnd(s: string)
    ensures |IntStripRight(s)| <= |s| && IntStripRight(s) == s[..|IntStripRight(s)|]
    ensures IntStripRight(s) == [] || !IsIntSpace(IntStripRight(s)[|IntStripRight(s)| - 1])
  {
    if |s| > 0 && IsIntSpace(s[|s| - 1]) {
      IntStripRightEnd(s[..|s| - 1]);
    }
  }

  /** The text `int()` parses once its surrounding whitespace is skipped:
      neither end is such whitespace. */
  function IntStrip(s: string): (r: string)
    ensures r == [] || (!IsIntSpace(r[0]) && !IsIntSpace(r[|r| - 1]))
  {
    IntStripLeftStart(s);
    IntStripRightEnd(IntStripLeft(s));
    IntStripRight(IntStripLeft(s))
  }

  /** Text whose ends are not whitespace is parsed as it is. */
  lemma IntStripOfClean(s: string)
    requires s == [] || (!IsIntSpace(s[0]) && !IsIntSpace(s[|s| - 1]))
    ensures IntStrip(s) == s
  {
  }

  /** After `str.strip()` there is nothing left for `int()` to skip: the
      loader strips every value before it parses one. */
  lemma IntStripAfterStrip(s: string)
    ensures IntStrip(Strip(s)) == Strip(s)
  {
    IntStripOfClean(Strip(s));
  }

  /** `int(s)` for a str `s`: surrounding whitespace, an optional sign, then
      a digit body of at most 4300 digits; anything else raises ValueError
      (None here). */
  function PyIntOfStr(s: string): Option<int> {
    var t := IntStrip(s);
    var signed := |t| > 0 && (t[0] == '-' || t[0] == '+');
    var body := if signed then t[1..] else t;
    if !ValidDigitBody(body) || DigitCount(body) > MaxStrDigits then None
    else if signed && t[0] == '-' then Some(-(DigitsValue(body) as int))
    else Some(DigitsValue(body))
  }

  /** The decimal digits of `n`, most significant first. */
  function Digits(n: nat): (r: string)
    ensures |r| > 0
    decreases n
  {
    if n < 10 then [('0' as int + n) as char] else Digits(n / 10) + [('0' as int + n % 10) as char]
  }

  /** `str(n)`. */
  function Decimal(n: int): string {
    if n < 0 then "-" + Digits(-n) else Digits(n)
  }

  lemma {:induction false} DigitsAreDigits(n: nat)
    ensures forall i :: 0 <= i < |Digits(n)| ==> IsDigit(Digits(n)[i])
    decreases n
  {
    if n >= 10 {
      DigitsAreDigits(n / 10);
    }
  }

  lemma {:induction false} DigitsParse(n: nat)
    ensures ValidDigitBody(Digits(n))
    ensures DigitsValue(Digits(n)) == n
    ensures DigitCount(Digits(n)) == |Digits(n)|
    decreases n
  {
    var d := Digits(n);
    DigitsAreDigits(n);
    if n >= 10 {
      DigitsParse(n / 10);
      assert d[..|d| - 1] == Digits(n / 10);
    }
  }

  /** `int(str(n)) == n` for every integer of at most 4300 digits. */
  lemma IntOfDecimal(n: int)
    requires |Digits(if n < 0 then -n else n)| <= MaxStrDigits
    ensures PyIntOfStr(Decimal(n)) == Some(n)
  {
    var m := if n < 0 then -n else n;
    var d := Digits(m);
    DigitsParse(m);
    var s := Decimal(n);
    assert IsDigit(d[0]) && IsDigit(d[|d| - 1]);
    assert s[|s| - 1] == d[|d| - 1];
    assert n < 0 ==> s[0] == '-' && s[1..] == d;
    assert n >= 0 ==> s == d;
    IntStripOfClean(s);
  }

  /** `int()` of an optionally signed digit body: the sign applies to the
      value its digits spell, whatever its leading zeros and underscores. */
  lemma IntOfSignedDigits(sign: string, body: string)
    requires sign == "" || sign == "+" || sign == "-"
    requires ValidDigitBody(body) && DigitCount(body) <= MaxStrDigits
    ensures PyIntOfStr(sign + body) == Some(if sign == "-" then -(DigitsValue(body) as int) else DigitsValue(body))
  {
    var s := sign + body;
    SignedDigitsStripped(sign, body);
    var signed := |s| > 0 && (s[0] == '-' || s[0] == '+');
    if sign == "" {
      assert s == body;
      assert !signed;
    } else {
      assert s[1..] == body;
      assert signed;
    }
  }

  /** A digit body ends in a digit. */
  lemma LastIsDigit(b: string)
    requires ValidDigitBody(b)
    ensures IsDigit(b[|b| - 1])
  {
  }

  lemma SignedDigitsStripped(sign: string, body: string)
    requires sign == "" || sign == "+" || sign == "-"
    requires ValidDigitBody(body)
    ensures IntStrip(sign + body) == sign + body
  {
    var s := sign + body;
    LastIsDigit(body);
    assert s[|s| - 1] == body[|body| - 1];
    assert s[0] == if sign == "" then body[0] else sign[0];
    IntStripOfClean(s);
  }

  /** `n` zeros. */
  function Zeros(k: nat): (r: string)
    ensures |r| == k
  {
    seq(k, _ => '0')
  }

  /** Leading zeros add digits but no value. */
  lemma {:induction false} LeadingZerosIgnored(k: nat, b: string)
    ensures DigitsValue(Zeros(k) + b) == DigitsValue(b)
    ensures DigitCount(Zeros(k) + b) == k + DigitCount(b)
    decreases |b|, k
  {
    if b == [] {
      assert Zeros(k) + b == Zeros(k);
      if k > 0 {
        assert Zeros(k)[..k - 1] == Zeros(k - 1) + [];
        LeadingZerosIgnored(k - 1, []);
      }
    } else {
      var z := Zeros(k) + b;
      assert z[..|z| - 1] == Zeros(k) + b[..|b| - 1];
      LeadingZerosIgnored(k, b[..|b| - 1]);
    }
  }

  /** An underscore between digit groups adds neither digits nor value. */
  lemma {:induction false} UnderscoreIgnored(a: string, b: string)
    ensures DigitsValue(a + "_" + b) == DigitsValue(a + b)
    ensures DigitCount(a + "_" + b) == DigitCount(a + b)
    decreases |b|
  {
    if b == [] {
      assert (a + "_" + b)[..|a|] == a + b;
    } else {
      var u, v := a + "_" + b, a + b;
      assert u[..|u| - 1] == a + "_" + b[..|b| - 1];
      assert v[..|v| - 1] == a + b[..|b| - 1];
      UnderscoreIgnored(a, b[..|b| - 1]);
    }
  }

  /** `int("+5")`: a plus sign is accepted and changes nothing. */
  lemma IntOfPlusSigned(n: nat)
    requires |Digits(n)| <= MaxStrDigits
    ensures PyIntOfStr("+" + Digits(n)) == Some(n)
  {
    DigitsParse(n);
    IntOfSignedDigits("+", Digits(n));
  }

  /** `int("-007") == -7`: leading zeros are accepted and change nothing. */
  lemma IntOfZeroPadded(k: nat, n: nat)
    requires k + |Digits(n)| <= MaxStrDigits
    ensures PyIntOfStr("-" + (Zeros(k) + Digits(n))) == Some(-(n as int))
  {
    ZeroPaddedBody(k, n);
    IntOfNegated(Zeros(k) + Digits(n), n);
  }

  lemma IntOfNegated(body: string, n: nat)
    requires ValidDigitBody(body) && DigitCount(body) <= MaxStrDigits && DigitsValue(body) == n
    ensures PyIntOfStr("-" + body) == Some(-(n as int))
  {
    IntOfSignedDigits("-", body);
  }

  /** `"0"*k + str(n)` is a digit body of `k + len(str(n))` digits
      spelling `n`. */
  lemma ZeroPaddedBody(k: nat, n: nat)
    ensures ValidDigitBody(Zeros(k) + Digits(n))
    ensures DigitCount(Zeros(k) + Digits(n)) == k + |Digits(n)|
    ensures DigitsValue(Zeros(k) + Digits(n)) == n
  {
    var z := Zeros(k) + Digits(n);
    DigitsParse(n);
    LeadingZerosIgnored(k, Digits(n));
    DigitsAreDigits(n);
    forall i | 0 <= i < |z| ensures IsDigit(z[i]) {
      if i < k {
        assert z[i] == Zeros(k)[i];
      } else {
        assert z[i] == Digits(n)[i - k];
      }
    }
  }

  /** `int("1_000") == 1000`: an underscore between digits is skipped. */
  lemma IntOfGrouped()
    ensures PyIntOfStr("1_000") == Some(1000)
  {
    GroupedBody();
    IntOfSignedDigits("", "1_000");
    assert "" + "1_000" == "1_000";
  }

  /** "1_000" is a digit body of four digits spelling 1000. */
  lemma GroupedBody()
    ensures ValidDigitBody("1_000") && DigitCount("1_000") == 4 && DigitsValue("1_000") == 1000
  {
    assert "1_000"[1] == '_' && IsDigit("1_000"[2]);
    UnderscoreIgnored("1", "000");
    assert "1" + "_" + "000" == "1_000";
    assert "1" + "000" == "1000";
    assert "1000"[..3] == "100" && "100"[..2] == "10" && "10"[..1] == "1" && "1"[..0] == "";
  }

  /** A fraction is not an integer literal: `int("12.5")` raises. */
  lemma FractionIsNotAnInt()
    ensures PyIntOfStr("12.5") == None
  {
    IntStripOfClean("12.5");
    assert !ValidDigitBody("12.5") by {
      assert "12.5"[2] == '.';
    }
  }

  /** `int(" 42\n") == 42`: surrounding whitespace is skipped. */
  lemma IntOfPadded()
    ensures PyIntOfStr(" 42\n") == Some(42)
  {
    assert IntStripLeft(" 42\n") == IntStripLeft("42\n") == "42\n";
    assert IntStripRight("42\n") == IntStripRight("42") == "42";
    assert ValidDigitBody("42") by {
      assert IsDigit("42"[0]) && IsDigit("42"[1]);
    }
    assert "42"[..1] == "4" && "4"[..0] == "";
  }

  /** `int("\x1c5")` raises: the separator U+001C is whitespace to
      `str.isspace()` but not to `int()`, so `parse_int` falls back to
      `int(float(...))` on such text. */
  lemma InfoSeparatorIsNotIntSpace(intOfFloat: string -> Option<int>)
    ensures IsSpace('\U{1C}') && PyIntOfStr("\U{1C}5") == None
    ensures ParseInt(RawStr("\U{1C}5"), intOfFloat) == intOfFloat("\U{1C}5")
  {
    IntStripOfClean("\U{1C}5");
    assert !ValidDigitBody("\U{1C}5") by {
      assert !IsDigit("\U{1C}5"[0]);
    }
  }

  // ---------------------------------------------------------------------
  // parse_int and parse_float
  // ---------------------------------------------------------------------

  /** `parse_int(v)`: None and '' give None; otherwise `int(v)`, falling
      back to `int(float(v))`, and None if both raise. `intOfFloat` is
      `int(float(s))` for a str `s`, None where it raises. `int()` and
      `float()` of a list raise TypeError. */
  function ParseInt(v: Raw, intOfFloat: string -> Option<int>): Option<int> {
    match v
    case RawNone => None
    case RawList(_) => None
    case RawStr(s) =>
      if s == "" then None
      else if PyIntOfStr(s).Some? then PyIntOfStr(s)
      else intOfFloat(s)
  }

  /** `parse_float(v)`, with `floatOf` as Python's `float()` on a str. */
  function ParseFloat(v: Raw, floatOf: string -> Option<real>): Option<real> {
    match v
    case RawNone => None
    case RawList(_) => None
    case RawStr(s) => if s == "" then None else floatOf(s)
  }

  /** An integer literal parses to its value whatever the float fallback
      would have said. */
  lemma ParseIntOfDecimal(n: int, intOfFloat: string -> Option<int>)
    requires |Digits(if n < 0 then -n else n)| <= MaxStrDigits
    ensures ParseInt(RawStr(Decimal(n)), intOfFloat) == Some(n)
  {
    IntOfDecimal(n);
  }

  /** Any optionally signed digit body, with leading zeros and
      underscores, parses to its value without the float fallback. */
  lemma ParseIntOfSignedDigits(sign: string, body: string, intOfFloat: string -> Option<int>)
    requires sign == "" || sign == "+" || sign == "-"
    requires ValidDigitBody(body) && DigitCount(body) <= MaxStrDigits
    ensures ParseInt(RawStr(sign + body), intOfFloat)
            == Some(if sign == "-" then -(DigitsValue(body) as int) else DigitsValue(body))
  {
    IntOfSignedDigits(sign, body);
    assert |sign + body| > 0;
  }

  /** A missing, empty or non-text value parses to None. */
  lemma ParseIntOfNothing(v: Raw, intOfFloat: string -> Option<int>, floatOf: string -> Option<real>)
    requires v.RawNone? || v == RawStr("") || v.RawList?
    ensures ParseInt(v, intOfFloat) == None && ParseFloat(v, floatOf) == None
  {
  }

  // ---------------------------------------------------------------------
  // normalize_row
  // ---------------------------------------------------------------------

  function StripValue(v: Raw): Raw {
    if v.RawStr? then RawStr(Strip(v.s)) else v
  }

  /** No key of `r` is None. */
  predicate NoNoneKey(r: RawRow) {
    forall i :: 0 <= i < |r| ==> r[i].0.Some?
  }

  /** The entry at `i` is the last one whose stripped key is `k`. */
  predicate LastWith(r: RawRow, k: string, i: int)
    requires NoNoneKey(r)
  {
    0 <= i < |r| && Strip(r[i].0.value) == k
    && forall j :: i < j < |r| ==> Strip(r[j].0.value) != k
  }

  /** The dict comprehension that strips keys and text values; it fails
      exactly when some key is None. */
  function StripRow(r: RawRow): (res: Result<map<string, Raw>, LoadError>)
    ensures res.Failure? <==> !NoNoneKey(r)
    decreases |r|
  {
    if r == [] then Success(map[])
    else
      var prev := StripRow(r[..|r| - 1]);
      var last := r[|r| - 1];
      if prev.Failure? then prev
      else if last.0.None? then Failure(NoneKey)
      else Success(prev.value[Strip(last.0.value) := StripValue(last.1)])
  }

  /** The keys of the stripped row are the stripped keys of `r`. */
  lemma {:induction false} StripRowKeys(r: RawRow)
    requires NoNoneKey(r)
    ensures forall k :: k in StripRow(r).value <==> exists i :: 0 <= i < |r| && Strip(r[i].0.value) == k
    decreases |r|
  {
    if r != [] {
      var init := r[..|r| - 1];
      StripRowKeys(init);
      assert forall i :: 0 <= i < |init| ==> init[i] == r[i];
    }
  }

  /** The last entry of `r` overwrites what the rest of `r` built. */
  lemma StripRowStep(r: RawRow)
    requires r != [] && NoNoneKey(r)
    ensures NoNoneKey(r[..|r| - 1])
    ensures StripRow(r).value
         == StripRow(r[..|r| - 1]).value[Strip(r[|r| - 1].0.value) := StripValue(r[|r| - 1].1)]
  {
  }

  /** When several keys strip to the same text, the last one's value wins. */
  lemma {:induction false} StripRowLastWins(r: RawRow, k: string)
    requires NoNoneKey(r) && k in StripRow(r).value
    ensures exists i :: LastWith(r, k, i) && StripRow(r).value[k] == StripValue(r[i].1)
    decreases |r|
  {
    var last := |r| - 1;
    StripRowStep(r);
    if Strip(r[last].0.value) == k {
      assert LastWith(r, k, last);
    } else {
      var init := r[..last];
      StripRowLastWins(init, k);
      var i :| LastWith(init, k, i) && StripRow(init).value[k] == StripValue(init[i].1);
      assert init[i] == r[i];
      LastWithExtend(r, k, i);
    }
  }

  /** The last entry for `k` among all but the final entry stays the last
      one when the final entry's key is not `k`. */
  lemma LastWithExtend(r: RawRow, k: string, i: int)
    requires r != [] && NoNoneKey(r) && NoNoneKey(r[..|r| - 1])
    requires LastWith(r[..|r| - 1], k, i) && Strip(r[|r| - 1].0.value) != k
    ensures LastWith(r, k, i)
  {
    var init := r[..|r| - 1];
    assert forall j :: 0 <= j < |init| ==> init[j] == r[j];
  }

  /** Every text value of the stripped row is stripped. */
  lemma {:induction false} StripRowStripsText(r: RawRow, k: string)
    requires NoNoneKey(r) && k in StripRow(r).value && StripRow(r).value[k].RawStr?
    ensures IsStripped(StripRow(r).value[k].s)
  {
    StripRowLastWins(r, k);
  }

  /** `row.get(key, '')`. */
  function Get(row: map<string, Raw>, key: string): Raw {
    if key in row then row[key] else RawStr("")
  }

  function IntCellOf(x: Option<int>): Cell {
    if x.Some? then IntCell(x.value) else NullCell
  }

  function RealCellOf(x: Option<real>): Cell {
    if x.Some? then RealCell(x.value) else NullCell
  }

  /** `val if val != '' else None` on a text column. */
  function TextCellOf(v: Raw): Cell {
    match v
    case RawNone => NullCell
    case RawStr(s) => if s == "" then NullCell else TextCell(s)
    case RawList(xs) => ListCell(xs)
  }

  /** The value column `key` gets from the stripped row. */
  function NormalizeField(row: map<string, Raw>, key: string,
                          intOfFloat: string -> Option<int>, floatOf: string -> Option<real>): Cell
  {
    var val := Get(row, key);
    if key == "foot_traffic" then IntCellOf(ParseInt(val, intOfFloat))
    else if key in RealFields then RealCellOf(ParseFloat(val, floatOf))
    else TextCellOf(val)
  }

  /** What `normalize_row` returns or raises. */
  function NormalizedRow(r: RawRow, intOfFloat: string -> Option<int>, floatOf: string -> Option<real>)
    : Result<seq<Cell>, LoadError>
  {
    match StripRow(r)
    case Failure(e) => Failure(e)
    case Success(row) =>
      Success(seq(|FieldOrder|, i requires 0 <= i < |FieldOrder| => NormalizeField(row, FieldOrder[i], intOfFloat, floatOf)))
  }

  method NormalizeRow(r: RawRow, intOfFloat: string -> Option<int>, floatOf: string -> Option<real>)
    returns (res: Result<seq<Cell>, LoadError>)
    ensures res == NormalizedRow(r, intOfFloat, floatOf)
  {
    var stripped := StripRow(r);
    if stripped.Failure? {
      return Failure(stripped.error);
    }
    var row := stripped.value;
    var out: seq<Cell> := [];
    for i := 0 to |FieldOrder|
      invariant |out| == i
      invariant forall k :: 0 <= k < i ==> out[k] == NormalizeField(row, FieldOrder[k], intOfFloat, floatOf)
    {
      var key := FieldOrder[i];
      var val := if key in row then row[key] else RawStr("");
      var cell: Cell;
      if key == "foot_traffic" {
        cell := IntCellOf(ParseInt(val, intOfFloat));
      } else if key in RealFields {
        cell := RealCellOf(ParseFloat(val, floatOf));
      } else {
        cell := TextCellOf(val);
      }
      out := out + [cell];
    }
    assert out == NormalizedRow(r, intOfFloat, floatOf).value;
    res := Success(out);
  }

  // ---------------------------------------------------------------------
  // What a normalised row holds
  // ---------------------------------------------------------------------

  /** The kind of value the INSERT puts in a column. */
  predicate CellFits(key: string, c: Cell) {
    if key == "foot_traffic" then c.NullCell? || c.IntCell?
    else if key in RealFields then c.NullCell? || c.RealCell?
    else c.NullCell? || c.ListCell? || (c.TextCell? && c.text != "" && IsStripped(c.text))
  }

  /** A row fails exactly when it has a None key; otherwise it has one
      value per column, of that column's kind, and no text value is empty
      or has surrounding whitespace. */
  lemma NormalizedRowShape(r: RawRow, intOfFloat: string -> Option<int>, floatOf: string -> Option<real>)
    ensures NormalizedRow(r, intOfFloat, floatOf).Failure? <==> exists i :: 0 <= i < |r| && r[i].0.None?
    ensures NormalizedRow(r, intOfFloat, floatOf).Success? ==>
      |NormalizedRow(r, intOfFloat, floatOf).value| == |FieldOrder|
      && forall i :: 0 <= i < |FieldOrder| ==> CellFits(FieldOrder[i], NormalizedRow(r, intOfFloat, floatOf).value[i])
  {
    var res := StripRow(r);
    if res.Success? {
      var row := res.value;
      forall i | 0 <= i < |FieldOrder|
        ensures CellFits(FieldOrder[i], NormalizeField(row, FieldOrder[i], intOfFloat, floatOf))
      {
        var key := FieldOrder[i];
        if key in row && row[key].RawStr? {
          StripRowStripsText(r, key);
        }
      }
    }
  }

  /** A column no header names (after stripping) is NULL. */
  lemma MissingColumnIsNull(r: RawRow, i: int, intOfFloat: string -> Option<int>, floatOf: string -> Option<real>)
    requires 0 <= i < |FieldOrder| && NoNoneKey(r)
    requires forall j :: 0 <= j < |r| ==> Strip(r[j].0.value) != FieldOrder[i]
    ensures NormalizedRow(r, intOfFloat, floatOf).value[i] == NullCell
  {
    StripRowKeys(r);
  }

  /** A text column takes the stripped text of the last cell whose header
      strips to its name, NULL when that text is empty. */
  lemma TextColumnTakesLastCell(r: RawRow, i: int, j: int, intOfFloat: string -> Option<int>, floatOf: string -> Option<real>)
    requires 0 <= i < |FieldOrder| && FieldOrder[i] != "foot_traffic" && FieldOrder[i] !in RealFields
    requires NoNoneKey(r) && LastWith(r, FieldOrder[i], j) && r[j].1.RawStr?
    ensures NormalizedRow(r, intOfFloat, floatOf).value[i] ==
      if Strip(r[j].1.s) == "" then NullCell else TextCell(Strip(r[j].1.s))
  {
    var row := StripRow(r).value;
    var k := FieldOrder[i];
    assert NormalizedRow(r, intOfFloat, floatOf).value[i] == NormalizeField(row, k, intOfFloat, floatOf);
    StripRowKeys(r);
    StripRowLastWins(r, k);
    var j' :| LastWith(r, k, j') && row[k] == StripValue(r[j'].1);
    assert j' == j;
  }

  /** `foot_traffic` holding an integer literal (an optional sign, then
      digits with any leading zeros and single underscores), with any
      surrounding whitespace, is stored as the integer it spells. */
  lemma FootTrafficTakesInteger(r: RawRow, j: int, sign: string, body: string,
                                intOfFloat: string -> Option<int>, floatOf: string -> Option<real>)
    requires sign == "" || sign == "+" || sign == "-"
    requires ValidDigitBody(body) && DigitCount(body) <= MaxStrDigits
    requires NoNoneKey(r) && LastWith(r, "foot_traffic", j) && r[j].1.RawStr?
    requires Strip(r[j].1.s) == sign + body
    ensures NormalizedRow(r, intOfFloat, floatOf).value[3]
            == IntCell(if sign == "-" then -(DigitsValue(body) as int) else DigitsValue(body))
  {
    var row := StripRow(r).value;
    assert FieldOrder[3] == "foot_traffic";
    assert NormalizedRow(r, intOfFloat, floatOf).value[3] == NormalizeField(row, "foot_traffic", intOfFloat, floatOf);
    StripRowKeys(r);
    StripRowLastWins(r, "foot_traffic");
    var j' :| LastWith(r, "foot_traffic", j') && row["foot_traffic"] == StripValue(r[j'].1);
    assert j' == j;
    ParseIntOfSignedDigits(sign, body, intOfFloat);
  }

  // ---------------------------------------------------------------------
  // The INSERT statement
  // ---------------------------------------------------------------------

  /** n placeholders. */
  function Marks(n: nat): seq<string> {
    seq(n, _ => "?")
  }

  /** `INSERT INTO venues (<columns joined by commas>) VALUES (?,...,?)`,
      one `?` per column. */
  function InsertSql(columns: seq<string>): string {
    "INSERT INTO venues (" + Join(",", columns) + ") VALUES (" + Join(",", Marks(|columns|)) + ")"
  }

  lemma {:induction false} JoinMarksCount(n: nat)
    ensures Count(Join(",", Marks(n)), '?') == n
  {
    if n > 1 {
      JoinMarksCount(n - 1);
      assert Marks(n)[1..] == Marks(n - 1);
      CountAppend("?", "," + Join(",", Marks(n - 1)), '?');
      CountAppend(",", Join(",", Marks(n - 1)), '?');
      assert Join(",", Marks(n)) == "?" + ("," + Join(",", Marks(n - 1)));
    }
  }

  lemma {:induction false} JoinCountZero(xs: seq<string>, c: char)
    requires c != ','
    requires forall i :: 0 <= i < |xs| ==> Count(xs[i], c) == 0
    ensures Count(Join(",", xs), c) == 0
  {
    if |xs| > 1 {
      JoinCountZero(xs[1..], c);
      CountAppend(xs[0], "," + Join(",", xs[1..]), c);
      CountAppend(",", Join(",", xs[1..]), c);
      assert xs[0] + "," + Join(",", xs[1..]) == xs[0] + ("," + Join(",", xs[1..]));
    }
  }

  lemma {:induction false} NoCharNoCount(s: string, c: char)
    requires c !in s
    ensures Count(s, c) == 0
  {
    if |s| > 0 {
      assert c !in s[1..];
      NoCharNoCount(s[1..], c);
    }
  }

  /** No column name holds a comma or a question mark. */
  lemma PlainFieldNames()
    ensures forall i :: 0 <= i < |FieldOrder| ==> ',' !in FieldOrder[i] && Count(FieldOrder[i], '?') == 0
  {
    NoMarksOrCommas();
    forall i | 0 <= i < |FieldOrder| ensures Count(FieldOrder[i], '?') == 0 {
      NoCharNoCount(FieldOrder[i], '?');
    }
  }

  lemma NoMarksOrCommas()
    ensures forall i :: 0 <= i < |FieldOrder| ==> ',' !in FieldOrder[i] && '?' !in FieldOrder[i]
  {
    PlainNamesLow();
    PlainNamesMiddle();
    PlainNamesHigh();
  }

  lemma PlainNamesLow()
    ensures forall i :: 0 <= i < 8 ==> ',' !in FieldOrder[i] && '?' !in FieldOrder[i]
  {
  }

  lemma PlainNamesMiddle()
    ensures forall i :: 8 <= i < 16 ==> ',' !in FieldOrder[i] && '?' !in FieldOrder[i]
  {
  }

  lemma PlainNamesHigh()
    ensures forall i :: 16 <= i < 24 ==> ',' !in FieldOrder[i] && '?' !in FieldOrder[i]
  {
  }

  /** The column list of the INSERT names FIELD_ORDER, in order. */
  lemma ColumnListRoundTrip()
    ensures Split(Join(",", FieldOrder), ',') == FieldOrder
  {
    PlainFieldNames();
    SplitJoin(FieldOrder, ',');
  }

  /** Text around two parts adds no marks of its own. */
  lemma CountAround(p1: string, x: string, p2: string, y: string, p3: string, c: char)
    requires c !in p1 && c !in p2 && c !in p3
    ensures Count(p1 + x + p2 + y + p3, c) == Count(x, c) + Count(y, c)
  {
    NoCharNoCount(p1, c);
    NoCharNoCount(p2, c);
    NoCharNoCount(p3, c);
    CountAppend(p1, x, c);
    CountAppend(p1 + x, p2, c);
    CountAppend(p1 + x + p2, y, c);
    CountAppend(p1 + x + p2 + y, p3, c);
  }

  /** A statement over columns without `?` in their names has one
      placeholder per column. */
  lemma InsertSqlMarks(columns: seq<string>)
    requires forall i :: 0 <= i < |columns| ==> Count(columns[i], '?') == 0
    ensures Count(InsertSql(columns), '?') == |columns|
  {
    JoinCountZero(columns, '?');
    JoinMarksCount(|columns|);
    CountAround("INSERT INTO venues (", Join(",", columns), ") VALUES (", Join(",", Marks(|columns|)), ")", '?');
  }

  /** The loader's statement binds the 24 values of a normalised row. */
  lemma LoaderInsertBindsRow()
    ensures Count(InsertSql(FieldOrder), '?') == |FieldOrder| == 24
  {
    PlainFieldNames();
    InsertSqlMarks(FieldOrder);
  }

  /** The position in FIELD_ORDER of each column the queries filter on. */
  function ColumnIndex(c: Column): nat {
    match c
    case ChainName => 20
    case SubCategory => 16
    case Dma => 17
    case City => 12
    case StateName => 11
  }

  /** Every column the endpoints filter on is one the loader fills. */
  lemma FilterColumnsAreLoaded(c: Column)
    ensures ColumnIndex(c) < |FieldOrder| && FieldOrder[ColumnIndex(c)] == ColumnSql(c)
  {
  }
}
