/** Calendar dates without a time component (the proleptic Gregorian calendar
    of chrono's NaiveDate), their `%Y-%m-%d` text form and the two date text
    patterns the bank adapters read. */
module Calendar {
  import opened Outcomes
  import opened Text

  datatype Date = Date(year: int, month: int, day: int)

  predicate IsLeapYear(y: int)
  {
    y % 4 == 0 && (y % 100 != 0 || y % 400 == 0)
  }

  function DaysInMonth(y: int, m: int): (n: int)
    requires 1 <= m <= 12
    ensures 28 <= n <= 31
    ensures m == 2 ==> (n == 29 <==> IsLeapYear(y))
  {
    if m == 2 then (if IsLeapYear(y) then 29 else 28)
    else if m == 4 || m == 6 || m == 9 || m == 11 then 30
    else 31
  }

  /** The day exists in the calendar. */
  predicate Valid(d: Date)
  {
    1 <= d.month <= 12 && 1 <= d.day <= DaysInMonth(d.year, d.month)
  }

  /** A date that exists, as chrono's NaiveDate always holds. */
  type NaiveDate = d: Date | Valid(d) witness Date(1970, 1, 1)

  /** Characters that can appear in a formatted date. */
  predicate DateChar(c: char)
  {
    IsDigit(c) || c == '-' || c == '+'
  }

  predicate DateText(s: string)
  {
    forall i :: 0 <= i < |s| ==> DateChar(s[i])
  }

  lemma DateTextConcat(a: string, b: string)
    requires DateText(a) && DateText(b)
    ensures DateText(a + b)
  {
  }

  /** The year as `%Y` writes it: four zero-padded digits for the years 0 to
      9999, otherwise an explicit sign followed by at least four digits. */
  function FormatYear(y: int): (r: string)
    ensures DateText(r)
    ensures 0 <= y <= 9999 ==> |r| == 4 && AllDigits(r)
    ensures !(0 <= y <= 9999) ==> |r| >= 5 && r[0] == (if y < 0 then '-' else '+') && AllDigits(r[1..])
  {
    if 0 <= y <= 9999 then Padded(y, 4)
    else
      var digits := Padded(if y < 0 then -y else y, 4);
      var r := [if y < 0 then '-' else '+'] + digits;
      assert r[1..] == digits;
      r
  }

  /** The year's digits denote the year's magnitude. */
  lemma FormatYearValue(y: int)
    ensures 0 <= y <= 9999 ==> Value(FormatYear(y)) == y
    ensures !(0 <= y <= 9999) ==> Value(FormatYear(y)[1..]) == (if y < 0 then -y else y)
  {
    var a := if y < 0 then -y else y;
    PaddedValue(a, 4);
    if !(0 <= y <= 9999) {
      assert FormatYear(y)[1..] == Padded(a, 4);
    }
  }

  /** The date as `%Y-%m-%d` writes it: year, month and day joined by `-`. */
  function FormatDate(d: NaiveDate): string
  {
    Join([FormatYear(d.year), Padded(d.month, 2), Padded(d.day, 2)], '-')
  }

  /** The three-part join written out. */
  lemma JoinThree(a: string, b: string, c: string, sep: char)
    ensures Join([a, b, c], sep) == a + [sep] + b + [sep] + c
  {
    assert [a, b, c][1..] == [b, c] && [b, c][1..] == [c];
    assert Join([b, c], sep) == b + [sep] + c;
    assert Join([a, b, c], sep) == a + [sep] + (b + [sep] + c);
  }

  /** Three fields of widths 4, 2 and 2 joined by `-` sit at fixed offsets. */
  lemma FixedLayout(y: string, m: string, dd: string)
    requires |y| == 4 && |m| == 2 && |dd| == 2
    ensures var r := Join([y, m, dd], '-');
      && |r| == 10 && r[4] == '-' && r[7] == '-'
      && r[..4] == y && r[5..7] == m && r[8..] == dd
  {
    JoinThree(y, m, dd, '-');
  }

  /** A formatted date holds only digits, signs and `-`. */
  lemma FormatDateText(d: NaiveDate)
    ensures DateText(FormatDate(d))
  {
    var y, m, dd := FormatYear(d.year), Padded(d.month, 2), Padded(d.day, 2);
    JoinThree(y, m, dd, '-');
    DateTextConcat(y, "-");
    DateTextConcat(y + "-", m);
    DateTextConcat(y + "-" + m, "-");
    DateTextConcat(y + "-" + m + "-", dd);
  }

  /** A formatted date holds only digits, signs and `-`; for a four-digit
      year it is ten characters: the year, `-`, the zero-padded two-digit
      month, `-`, the zero-padded two-digit day. */
  lemma FormatDateLayout(d: NaiveDate)
    ensures var r := FormatDate(d);
      && DateText(r)
      && (0 <= d.year <= 9999 ==>
        && |r| == 10 && r[4] == '-' && r[7] == '-'
        && AllDigits(r[..4]) && Value(r[..4]) == d.year
        && AllDigits(r[5..7]) && Value(r[5..7]) == d.month
        && AllDigits(r[8..]) && Value(r[8..]) == d.day)
  {
    FormatDateText(d);
    if 0 <= d.year <= 9999 {
      FixedLayout(FormatYear(d.year), Padded(d.month, 2), Padded(d.day, 2));
      FormatYearValue(d.year);
      PaddedValue(d.month, 2);
      PaddedValue(d.day, 2);
    }
  }

  /** A numeric date field of one to `width` digits, as chrono reads a
      zero-padded numeric field of that maximal width. */
  function ParseField(s: string, width: nat): (r: Option<nat>)
    ensures r.Some? <==> 1 <= |s| <= width && AllDigits(s)
    ensures r.Some? ==> r.value == Value(s) && r.value < Pow10(width)
  {
    if !(1 <= |s| <= width && AllDigits(s)) then None
    else
      ValueBound(s);
      Pow10Monotone(|s|, width);
      Some(Value(s))
  }

  /** Builds the date from parsed fields if all three parsed and the day exists. */
  function Assemble(y: Option<nat>, m: Option<nat>, d: Option<nat>): (r: Option<NaiveDate>)
    ensures r.Some? <==> y.Some? && m.Some? && d.Some? && Valid(Date(y.value, m.value, d.value))
    ensures r.Some? ==> r.value == Date(y.value, m.value, d.value)
  {
    if y.Some? && m.Some? && d.Some? && Valid(Date(y.value, m.value, d.value))
    then Some(Date(y.value, m.value, d.value))
    else None
  }

  /** Reads `%Y-%m-%d`: year, month and day separated by `-`. The text is
      accepted exactly when it has three `-`-separated fields of 1 to 4, 1 to
      2 and 1 to 2 digits that name an existing day, and the date read is
      the one those fields denote. */
  function ParseYearMonthDay(s: string): (r: Option<NaiveDate>)
    ensures var p := Split(s, '-');
      r.Some? <==>
        && |p| == 3
        && 1 <= |p[0]| <= 4 && 1 <= |p[1]| <= 2 && 1 <= |p[2]| <= 2
        && AllDigits(p[0]) && AllDigits(p[1]) && AllDigits(p[2])
        && Valid(Date(Value(p[0]), Value(p[1]), Value(p[2])))
    ensures var p := Split(s, '-');
      r.Some? ==> r.value == Date(Value(p[0]), Value(p[1]), Value(p[2]))
    ensures r.Some? ==> 0 <= r.value.year <= 9999
    ensures r.Some? ==> Occurrences(s, '-') == 2
  {
    var p := Split(s, '-');
    if |p| != 3 then None
    else Assemble(ParseField(p[0], 4), ParseField(p[1], 2), ParseField(p[2], 2))
  }

  /** Reads `%d.%m.%Y`: day, month and year separated by `.`. The text is
      accepted exactly when it has three `.`-separated fields of 1 to 2, 1 to
      2 and 1 to 4 digits that name an existing day; the first field is the
      day, the second the month and the third the year. */
  function ParseDayMonthYear(s: string): (r: Option<NaiveDate>)
    ensures var p := Split(s, '.');
      r.Some? <==>
        && |p| == 3
        && 1 <= |p[0]| <= 2 && 1 <= |p[1]| <= 2 && 1 <= |p[2]| <= 4
        && AllDigits(p[0]) && AllDigits(p[1]) && AllDigits(p[2])
        && Valid(Date(Value(p[2]), Value(p[1]), Value(p[0])))
    ensures var p := Split(s, '.');
      r.Some? ==> r.value == Date(Value(p[2]), Value(p[1]), Value(p[0]))
    ensures r.Some? ==> 0 <= r.value.year <= 9999
    ensures r.Some? ==> Occurrences(s, '.') == 2
  {
    var p := Split(s, '.');
    if |p| != 3 then None
    else Assemble(ParseField(p[2], 4), ParseField(p[1], 2), ParseField(p[0], 2))
  }

  lemma DigitsHaveNo(s: string, c: char)
    requires AllDigits(s) && !IsDigit(c)
    ensures c !in s
  {
  }

  /** A zero-padded number no longer than the width reads back as itself. */
  lemma PaddedField(n: nat, width: nat)
    requires |Decimal(n)| <= width
    ensures ParseField(Padded(n, width), width) == Some(n)
  {
    PaddedValue(n, width);
  }

  /** The formatted date of a four-digit year splits on `-` into its three
      fields. */
  lemma SplitFormatDate(d: NaiveDate)
    requires 0 <= d.year <= 9999
    ensures Split(FormatDate(d), '-') == [FormatYear(d.year), Padded(d.month, 2), Padded(d.day, 2)]
  {
    var parts := [FormatYear(d.year), Padded(d.month, 2), Padded(d.day, 2)];
    DigitsHaveNo(parts[0], '-');
    DigitsHaveNo(parts[1], '-');
    DigitsHaveNo(parts[2], '-');
    SplitJoin(parts, '-');
  }

  /** Reading back what `%Y-%m-%d` wrote gives the same date, for every date
      with a four-digit year. */
  lemma FormatThenParse(d: NaiveDate)
    requires 0 <= d.year <= 9999
    ensures ParseYearMonthDay(FormatDate(d)) == Some(d)
  {
    SplitFormatDate(d);
    assert ParseField(FormatYear(d.year), 4) == Some(d.year) by {
      FormatYearValue(d.year);
    }
    PaddedField(d.month, 2);
    PaddedField(d.day, 2);
  }

  /** A date read from `%Y-%m-%d` text is written back as exactly that text
      if and only if the text's fields already have the full widths 4, 2 and
      2; otherwise the writer pads them with zeros. */
  lemma ParseThenFormat(s: string)
    requires ParseYearMonthDay(s).Some?
    ensures var p := Split(s, '-');
      FormatDate(ParseYearMonthDay(s).value) == s <==> |p[0]| == 4 && |p[1]| == 2 && |p[2]| == 2
  {
    var d := ParseYearMonthDay(s).value;
    var p := Split(s, '-');
    if FormatDate(d) == s {
      SplitFormatDate(d);
    }
    if |p[0]| == 4 && |p[1]| == 2 && |p[2]| == 2 {
      PaddedDigits(p[0]);
      PaddedDigits(p[1]);
      PaddedDigits(p[2]);
      assert p == [p[0], p[1], p[2]];
      JoinSplit(s, '-');
    }
  }
}
