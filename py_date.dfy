/** `datetime.strptime` for the two day-first formats the parsers use,
    "%d-%m-%Y" (transaction rows) and "%d.%m.%Y" (the statement period),
    and the date-and-time values the parsers store. */
module PyDate {
  import opened Wrappers
  import opened PyText

  /** A calendar date as strptime reads it. */
  datatype CivilDate = CivilDate(day: int, month: int, year: int)

  /** A stored timestamp: a date, its time of day (midnight, or 23:59:59
      when `endOfDay`), and whether the fixed UTC+01:00 offset is attached
      (otherwise it is a naive datetime). */
  datatype Stamp = Stamp(date: CivilDate, endOfDay: bool, utcPlusOne: bool)

  predicate IsLeapYear(y: int) { y % 4 == 0 && (y % 100 != 0 || y % 400 == 0) }

  function DaysInMonth(m: int, y: int): int
    requires 1 <= m <= 12
  {
    if m == 2 then (if IsLeapYear(y) then 29 else 28)
    else if m == 4 || m == 6 || m == 9 || m == 11 then 30
    else 31
  }

  /** The dates `datetime` accepts. */
  predicate ValidDate(c: CivilDate) {
    1 <= c.year <= 9999 && 1 <= c.month <= 12 && 1 <= c.day <= DaysInMonth(c.month, c.year)
  }

  function DigitOf(c: char): int { c as int - '0' as int }

  /** The text strptime's `%d` accepts before a separator:
      `3[01]|[12]\d|0[1-9]|[1-9]| [1-9]`. */
  function DayField(t: string): Option<int> {
    if |t| == 2 && AllDigits(t) && 1 <= DigitValue(t) <= 31 then Some(DigitValue(t))
    else if |t| == 1 && '1' <= t[0] <= '9' then Some(DigitOf(t[0]))
    else if |t| == 2 && t[0] == ' ' && '1' <= t[1] <= '9' then Some(DigitOf(t[1]))
    else None
  }

  /** The text strptime's `%m` accepts before a separator:
      `1[0-2]|0[1-9]|[1-9]`. */
  function MonthField(t: string): Option<int> {
    if |t| == 2 && AllDigits(t) && 1 <= DigitValue(t) <= 12 then Some(DigitValue(t))
    else if |t| == 1 && '1' <= t[0] <= '9' then Some(DigitOf(t[0]))
    else None
  }

  /** The text strptime's `%Y` accepts at the end of the input: exactly four
      digits. */
  function YearField(t: string): Option<int> {
    if |t| == 4 && AllDigits(t) then Some(DigitValue(t)) else None
  }

  /** `datetime.strptime(s, "%d" + sep + "%m" + sep + "%Y")` for a separator
      that is neither a digit nor a space: the date, or None where strptime
      raises ValueError (a field of the wrong shape, text left over, or a
      day the month does not have). */
  function StrpDate(s: string, sep: char): Option<CivilDate> {
    var dayText := FirstSegment(s, sep);
    if |dayText| == |s| then None
    else
      var rest := s[|dayText| + 1..];
      var monthText := FirstSegment(rest, sep);
      if |monthText| == |rest| then None
      else
        var yearText := rest[|monthText| + 1..];
        match (DayField(dayText), MonthField(monthText), YearField(yearText))
        case (Some(d), Some(m), Some(y)) =>
          if ValidDate(CivilDate(d, m, y)) then Some(CivilDate(d, m, y)) else None
        case _ => None
  }

  // ---------------------------------------------------------------------
  // Formatting, the partner of parsing

  function DigitChar(k: int): char
    requires 0 <= k < 10
  {
    (k + '0' as int) as char
  }

  /** Zero-padded two-digit text of `n`. */
  function Pad2(n: int): string
    requires 0 <= n < 100
  {
    [DigitChar(n / 10), DigitChar(n % 10)]
  }

  /** Zero-padded four-digit text of `n`. */
  function Pad4(n: int): string
    requires 0 <= n < 10000
  {
    [DigitChar(n / 1000), DigitChar(n / 100 % 10), DigitChar(n / 10 % 10), DigitChar(n % 10)]
  }

  /** The zero-padded `dd<sep>mm<sep>yyyy` text of a date. */
  function FormatDate(c: CivilDate, sep: char): string
    requires ValidDate(c)
  {
    Pad2(c.day) + [sep] + Pad2(c.month) + [sep] + Pad4(c.year)
  }

  lemma Pad2Value(n: int)
    requires 0 <= n < 100
    ensures AllDigits(Pad2(n)) && DigitValue(Pad2(n)) == n
  {
    var s := Pad2(n);
    assert s[..1][..0] == [];
    assert DigitValue(s[..1]) == n / 10;
  }

  lemma Pad4Value(n: int)
    requires 0 <= n < 10000
    ensures AllDigits(Pad4(n)) && DigitValue(Pad4(n)) == n
  {
    var s1 := [DigitChar(n / 1000)];
    DigitStep([], n / 1000);
    var s2 := s1 + [DigitChar(n / 100 % 10)];
    DigitStep(s1, n / 100 % 10);
    var s3 := s2 + [DigitChar(n / 10 % 10)];
    DigitStep(s2, n / 10 % 10);
    DigitStep(s3, n % 10);
    TenSplits(n);
    assert s3 + [DigitChar(n % 10)] == Pad4(n);
  }

  lemma TenSplits(n: int)
    requires 0 <= n < 10000
    ensures n / 1000 * 10 + n / 100 % 10 == n / 100
    ensures n / 100 * 10 + n / 10 % 10 == n / 10
    ensures n / 10 * 10 + n % 10 == n
  {
    var q := n / 10;
    assert n / 100 == q / 10;
    assert n / 1000 == q / 100;
  }

  /** Appending the digit `k` multiplies the value by ten and adds `k`. */
  lemma DigitStep(s: string, k: int)
    requires AllDigits(s) && 0 <= k < 10
    ensures AllDigits(s + [DigitChar(k)])
    ensures DigitValue(s + [DigitChar(k)]) == DigitValue(s) * 10 + k
  {
    var t := s + [DigitChar(k)];
    assert t[..|t| - 1] == s;
  }

  /** Splitting at the first separator finds the text before it. */
  lemma {:induction false} FirstSegmentBefore(w: string, sep: char, rest: string)
    requires sep !in w
    ensures FirstSegment(w + [sep] + rest, sep) == w
  {
    if |w| > 0 {
      assert (w + [sep] + rest)[1..] == w[1..] + [sep] + rest;
      FirstSegmentBefore(w[1..], sep, rest);
    } else {
      assert (w + [sep] + rest)[0] == sep;
    }
  }

  /** strptime reads back the zero-padded text of every date `datetime`
      accepts, with either separator the parsers use. */
  lemma StrpDateOfFormat(c: CivilDate, sep: char)
    requires ValidDate(c)
    requires sep == '-' || sep == '.'
    ensures StrpDate(FormatDate(c, sep), sep) == Some(c)
  {
    var d, m, y := Pad2(c.day), Pad2(c.month), Pad4(c.year);
    Pad2Value(c.day);
    Pad2Value(c.month);
    Pad4Value(c.year);
    var s := FormatDate(c, sep);
    assert sep !in d;
    FirstSegmentBefore(d, sep, m + [sep] + y);
    assert s == d + [sep] + (m + [sep] + y);
    var rest := s[|d| + 1..];
    assert rest == m + [sep] + y;
    assert sep !in m;
    FirstSegmentBefore(m, sep, y);
    assert rest[|m| + 1..] == y;
  }

  /** The fields of a `dd-dd-dddd` text, read as numbers. */
  function ShapedFields(s: string): CivilDate
    requires DateShaped(s)
  {
    CivilDate(DigitValue(s[..2]), DigitValue(s[3..5]), DigitValue(s[6..10]))
  }

  /** A `dd-dd-dddd` text splits at its dashes into its three fields. */
  lemma ShapedSplit(s: string)
    requires DateShaped(s)
    ensures FirstSegment(s, '-') == s[..2]
    ensures FirstSegment(s[3..], '-') == s[3..5]
    ensures s[3..][3..] == s[6..]
    ensures AllDigits(s[..2]) && AllDigits(s[3..5])
  {
    var d, m, y := s[..2], s[3..5], s[6..];
    assert s == d + ['-'] + (m + ['-'] + y);
    FirstSegmentBefore(d, '-', m + ['-'] + y);
    assert s[3..] == m + ['-'] + y;
    FirstSegmentBefore(m, '-', y);
  }

  /** On the text of a transaction row's date column, strptime with
      "%d-%m-%Y" succeeds exactly when the digits name a real date; a final
      line break, which the row test lets through, is text left over and
      makes it fail. */
  lemma StrpShapedDate(s: string)
    requires DateShaped(s)
    ensures StrpDate(s, '-') == if |s| == 10 && ValidDate(ShapedFields(s)) then Some(ShapedFields(s)) else None
  {
    ShapedSplit(s);
    var y := s[6..];
    if |s| == 10 {
      assert y == s[6..10];
    } else {
      assert !AllDigits(y);
    }
  }
}
