/**
 * The two date helpers of the invoice generator: adding whole months to an ISO
 * `YYYY-MM-DD` date the way JavaScript's `Date.setMonth` does (the month field
 * advances with a year carry, and a day-of-month that does not exist in the
 * target month rolls over into the next month), and turning `YYYY-MM-DD` into
 * `DD/MM/YYYY` for display. Dates are proleptic Gregorian; the month is 1-based.
 */
module Calendar {
  import opened Text
  import opened Wrappers

  datatype Date = Date(year: nat, month: int, day: int)

  predicate IsLeapYear(y: int) {
    y % 4 == 0 && (y % 100 != 0 || y % 400 == 0)
  }

  function DaysInMonth(y: int, m: int): (n: int)
    requires 1 <= m <= 12
    ensures 28 <= n <= 31
    ensures n == 29 <==> m == 2 && IsLeapYear(y)
  {
    if m == 2 then (if IsLeapYear(y) then 29 else 28)
    else if m == 4 || m == 6 || m == 9 || m == 11 then 30
    else 31
  }

  predicate ValidDate(d: Date) {
    1 <= d.month <= 12 && 1 <= d.day <= DaysInMonth(d.year, d.month)
  }

  // ---------------------------------------------------------------------------
  // Reference: counting days from the first day of year 0
  // ---------------------------------------------------------------------------

  function DaysInYear(y: int): int {
    if IsLeapYear(y) then 366 else 365
  }

  /** Days in the years before `y`: 365 each, plus one per leap year among 0 .. y - 1. */
  function DaysBeforeYear(y: nat): nat {
    365 * y + (y + 3) / 4 - (y + 99) / 100 + (y + 399) / 400
  }

  /** Euclidean division: a quotient and remainder in range are the ones `/` and `%` give. */
  lemma DivUnique(a: int, k: int, q: int, r: int)
    requires k > 0 && 0 <= r < k && a == q * k + r
    ensures a / k == q && a % k == r
  {
    var q', r' := a / k, a % k;
    assert (q - q') * k == r' - r;
    MultipleBounds(q - q', k);
  }

  /** A non-zero multiple of `k` is at least `k` away from zero. */
  lemma MultipleBounds(n: int, k: int)
    requires k > 0
    ensures n >= 1 ==> n * k >= k
    ensures n <= -1 ==> n * k <= -k
  {
  }

  /** Counting the multiples of `k` among 1 .. y + 1 rather than 1 .. y. */
  lemma CeilingStep(y: nat, k: nat)
    requires k > 0
    ensures (y + k) / k == (y + k - 1) / k + (if y % k == 0 then 1 else 0)
  {
    var q, r := y / k, y % k;
    DivUnique(y + k, k, q + 1, r);
    if r == 0 {
      DivUnique(y + k - 1, k, q, k - 1);
    } else {
      DivUnique(y + k - 1, k, q + 1, r - 1);
    }
  }

  /** A multiple of 400 is a multiple of 100, and a multiple of 100 one of 4. */
  lemma CenturyMultiples(y: nat)
    ensures y % 100 == 0 ==> y % 4 == 0
    ensures y % 400 == 0 ==> y % 100 == 0
  {
    if y % 100 == 0 {
      DivUnique(y, 4, y / 100 * 25, 0);
    }
    if y % 400 == 0 {
      DivUnique(y, 100, y / 400 * 4, 0);
    }
  }

  lemma DaysBeforeYearStep(y: nat)
    ensures DaysBeforeYear(y + 1) == DaysBeforeYear(y) + DaysInYear(y)
  {
    CeilingStep(y, 4);
    CeilingStep(y, 100);
    CeilingStep(y, 400);
    CenturyMultiples(y);
  }

  function DaysBeforeMonth(y: int, m: int): nat
    requires 1 <= m <= 12
  {
    if m == 1 then 0 else DaysBeforeMonth(y, m - 1) + DaysInMonth(y, m - 1)
  }

  /** The number of days from 0000-01-01 to `d` (day 1 of month 1 of year 0 is 0). */
  function DayNumber(d: Date): int
    requires 1 <= d.month <= 12
  {
    DaysBeforeYear(d.year) + DaysBeforeMonth(d.year, d.month) + d.day - 1
  }

  lemma DaysBeforeDecember(y: int)
    ensures DaysBeforeMonth(y, 12) + DaysInMonth(y, 12) == DaysInYear(y)
  {
    assert DaysBeforeMonth(y, 2) == 31;
    assert DaysBeforeMonth(y, 3) == 31 + DaysInMonth(y, 2);
    assert DaysBeforeMonth(y, 4) == DaysBeforeMonth(y, 3) + 31;
    assert DaysBeforeMonth(y, 5) == DaysBeforeMonth(y, 3) + 61;
    assert DaysBeforeMonth(y, 6) == DaysBeforeMonth(y, 3) + 92;
    assert DaysBeforeMonth(y, 7) == DaysBeforeMonth(y, 3) + 122;
    assert DaysBeforeMonth(y, 8) == DaysBeforeMonth(y, 3) + 153;
    assert DaysBeforeMonth(y, 9) == DaysBeforeMonth(y, 3) + 184;
    assert DaysBeforeMonth(y, 10) == DaysBeforeMonth(y, 3) + 214;
    assert DaysBeforeMonth(y, 11) == DaysBeforeMonth(y, 3) + 245;
    assert DaysBeforeMonth(y, 12) == DaysBeforeMonth(y, 3) + 275;
  }

  /** The first day of the month after `y`-`m` comes `DaysInMonth(y, m)` days later. */
  lemma NextMonthStart(y: nat, m: int)
    requires 1 <= m <= 12
    ensures m < 12 ==> DayNumber(Date(y, m + 1, 1)) == DayNumber(Date(y, m, 1)) + DaysInMonth(y, m)
    ensures m == 12 ==> DayNumber(Date(y + 1, 1, 1)) == DayNumber(Date(y, 12, 1)) + DaysInMonth(y, 12)
  {
    if m == 12 {
      DaysBeforeDecember(y);
      DaysBeforeYearStep(y);
    }
  }

  lemma {:induction false} DaysBeforeYearGrows(y1: nat, y2: nat)
    requires y1 < y2
    ensures DaysBeforeYear(y2) >= DaysBeforeYear(y1) + DaysInYear(y1)
    decreases y2
  {
    DaysBeforeYearStep(y2 - 1);
    if y2 > y1 + 1 {
      DaysBeforeYearGrows(y1, y2 - 1);
    }
  }

  lemma {:induction false} DaysBeforeMonthGrows(y: int, m1: int, m2: int)
    requires 1 <= m1 < m2 <= 12
    ensures DaysBeforeMonth(y, m2) >= DaysBeforeMonth(y, m1) + DaysInMonth(y, m1)
    decreases m2
  {
    if m2 > m1 + 1 {
      DaysBeforeMonthGrows(y, m1, m2 - 1);
    }
  }

  lemma DayOfYearBound(d: Date)
    requires ValidDate(d)
    ensures DaysBeforeMonth(d.year, d.month) + d.day - 1 < DaysInYear(d.year)
  {
    DaysBeforeDecember(d.year);
    if d.month < 12 {
      DaysBeforeMonthGrows(d.year, d.month, 12);
    }
  }

  /** Distinct valid dates have distinct day numbers. */
  lemma DayNumberInjective(a: Date, b: Date)
    requires ValidDate(a) && ValidDate(b) && DayNumber(a) == DayNumber(b)
    ensures a == b
  {
    DayOfYearBound(a);
    DayOfYearBound(b);
    if a.year < b.year {
      DaysBeforeYearGrows(a.year, b.year);
    } else if b.year < a.year {
      DaysBeforeYearGrows(b.year, a.year);
    }
    assert a.year == b.year;
    if a.month < b.month {
      DaysBeforeMonthGrows(a.year, a.month, b.month);
    } else if b.month < a.month {
      DaysBeforeMonthGrows(a.year, b.month, a.month);
    }
  }

  // ---------------------------------------------------------------------------
  // Date.setMonth(getMonth() + k)
  // ---------------------------------------------------------------------------

  /** Year and month the month field lands on after advancing `k` months, with carry. */
  function TargetYear(d: Date, k: nat): nat
    requires 1 <= d.month <= 12
  {
    d.year + (d.month - 1 + k) / 12
  }

  function TargetMonth(d: Date, k: nat): (m: int)
    requires 1 <= d.month <= 12
    ensures 1 <= m <= 12
  {
    (d.month - 1 + k) % 12 + 1
  }

  /** Months since the start of year 0, a scale on which adding months is addition. */
  function MonthIndex(y: nat, m: int): int {
    y * 12 + m - 1
  }

  /**
   * `setMonth`: keep the day-of-month and let it overflow into the following
   * month when the target month is too short.
   */
  function AddMonths(d: Date, k: nat): (r: Date)
    requires ValidDate(d)
    ensures ValidDate(r)
    ensures DayNumber(r) == DayNumber(Date(TargetYear(d, k), TargetMonth(d, k), 1)) + d.day - 1
  {
    var y, m := TargetYear(d, k), TargetMonth(d, k);
    NextMonthStart(y, m);
    if d.day <= DaysInMonth(y, m) then Date(y, m, d.day)
    else if m < 12 then Date(y, m + 1, d.day - DaysInMonth(y, m))
    else Date(y + 1, 1, d.day - DaysInMonth(y, m))
  }

  /**
   * The month field advances by exactly `k` (with year carry); the day is kept
   * when the target month has it, and otherwise the result lies in the next
   * month, at most three days into it.
   */
  lemma AddMonthsFields(d: Date, k: nat)
    requires ValidDate(d)
    ensures MonthIndex(TargetYear(d, k), TargetMonth(d, k)) == MonthIndex(d.year, d.month) + k
    ensures var r := AddMonths(d, k); var dim := DaysInMonth(TargetYear(d, k), TargetMonth(d, k));
      if d.day <= dim then
        r.year == TargetYear(d, k) && r.month == TargetMonth(d, k) && r.day == d.day
      else
        && MonthIndex(r.year, r.month) == MonthIndex(d.year, d.month) + k + 1
        && r.day == d.day - dim
        && 1 <= r.day <= 3
  {
  }

  /**
   * `AddMonths` is exactly `MakeDay(targetYear, targetMonth, day)`: the unique
   * valid date lying `day - 1` days after the first of the target month.
   */
  lemma AddMonthsIsMakeDay(d: Date, k: nat, e: Date)
    requires ValidDate(d) && ValidDate(e)
    requires DayNumber(e) == DayNumber(Date(TargetYear(d, k), TargetMonth(d, k), 1)) + d.day - 1
    ensures AddMonths(d, k) == e
  {
    DayNumberInjective(AddMonths(d, k), e);
  }

  /** Adding twelve months to a day other than 29 February lands on the same day a year later. */
  lemma AddYear(d: Date)
    requires ValidDate(d) && !(d.month == 2 && d.day == 29)
    ensures AddMonths(d, 12) == Date(d.year + 1, d.month, d.day)
  {
    DivUnique(d.month - 1 + 12, 12, 1, d.month - 1);
    assert TargetYear(d, 12) == d.year + 1 && TargetMonth(d, 12) == d.month;
    assert d.day <= DaysInMonth(d.year + 1, d.month);
  }

  /** 31 January plus one month is 2 March in a leap year and 3 March otherwise. */
  lemma JanuaryEndRollsOver(y: nat)
    ensures AddMonths(Date(y, 1, 31), 1) == if IsLeapYear(y) then Date(y, 3, 2) else Date(y, 3, 3)
  {
    assert TargetYear(Date(y, 1, 31), 1) == y && TargetMonth(Date(y, 1, 31), 1) == 2;
  }

  lemma OverflowExamples()
    ensures AddMonths(Date(2024, 1, 31), 1) == Date(2024, 3, 2)
    ensures AddMonths(Date(2023, 1, 31), 1) == Date(2023, 3, 3)
    ensures AddMonths(Date(2024, 3, 15), 12) == Date(2025, 3, 15)
    ensures AddMonths(Date(2024, 2, 29), 12) == Date(2025, 3, 1)
  {
    assert TargetYear(Date(2024, 1, 31), 1) == 2024 && TargetMonth(Date(2024, 1, 31), 1) == 2;
    assert IsLeapYear(2024) && !IsLeapYear(2023) && !IsLeapYear(2025);
    assert TargetYear(Date(2023, 1, 31), 1) == 2023 && TargetMonth(Date(2023, 1, 31), 1) == 2;
    assert TargetYear(Date(2024, 3, 15), 12) == 2025 && TargetMonth(Date(2024, 3, 15), 12) == 3;
    assert TargetYear(Date(2024, 2, 29), 12) == 2025 && TargetMonth(Date(2024, 2, 29), 12) == 2;
  }

  // ---------------------------------------------------------------------------
  // Decimal text
  // ---------------------------------------------------------------------------

  predicate IsDigit(c: char) {
    '0' <= c <= '9'
  }

  predicate AllDigits(s: string) {
    forall i :: 0 <= i < |s| ==> IsDigit(s[i])
  }

  function DigitChar(n: int): (c: char)
    requires 0 <= n < 10
    ensures IsDigit(c)
  {
    ('0' as int + n) as char
  }

  /** `String(n)` for a non-negative integer. */
  function NatToString(n: nat): (s: string)
    ensures |s| >= 1 && AllDigits(s)
  {
    if n < 10 then [DigitChar(n)] else NatToString(n / 10) + [DigitChar(n % 10)]
  }

  /** The value of a string of decimal digits. */
  function DigitsValue(s: string): nat
    requires AllDigits(s)
  {
    if s == [] then 0 else DigitsValue(s[..|s| - 1]) * 10 + (s[|s| - 1] as int - '0' as int)
  }

  /** Reading back the digits of `String(n)` gives `n`. */
  lemma {:induction false} DigitsRoundTrip(n: nat)
    ensures DigitsValue(NatToString(n)) == n
  {
    if n >= 10 {
      DigitsRoundTrip(n / 10);
      var s := NatToString(n);
      assert s[..|s| - 1] == NatToString(n / 10);
    }
  }

  lemma {:induction false} NatToStringLength(n: nat)
    ensures n < 10 ==> |NatToString(n)| == 1
    ensures 10 <= n < 100 ==> |NatToString(n)| == 2
    ensures 100 <= n < 1000 ==> |NatToString(n)| == 3
    ensures 1000 <= n < 10000 ==> |NatToString(n)| == 4
  {
    if n >= 10 {
      NatToStringLength(n / 10);
    }
  }

  /** `s.padStart(width, fill)` for a one-character fill. */
  function PadStart(s: string, width: nat, fill: char): (r: string)
    ensures |r| == if |s| >= width then |s| else width
    ensures r[|r| - |s|..] == s
    ensures forall i :: 0 <= i < |r| - |s| ==> r[i] == fill
    decreases width - |s|
  {
    if |s| >= width then s else PadStart([fill] + s, width, fill)
  }

  /** A one- or two-digit number padded to two digits. */
  function TwoDigits(n: nat): string {
    PadStart(NatToString(n), 2, '0')
  }

  lemma TwoDigitsRoundTrip(n: nat)
    requires n < 100
    ensures |TwoDigits(n)| == 2 && AllDigits(TwoDigits(n)) && DigitsValue(TwoDigits(n)) == n
  {
    var s := NatToString(n);
    NatToStringLength(n);
    DigitsRoundTrip(n);
    if n < 10 {
      assert TwoDigits(n) == "0" + s;
      assert DigitsValue(TwoDigits(n)[..1]) == 0;
    }
  }

  // ---------------------------------------------------------------------------
  // The ISO text form
  // ---------------------------------------------------------------------------

  /** What `${year}-${month}-${day}` produces, month and day padded to two digits. */
  function FormatIsoDate(d: Date): string
    requires ValidDate(d)
  {
    NatToString(d.year) + "-" + TwoDigits(d.month) + "-" + TwoDigits(d.day)
  }

  /**
   * `new Date(s)` for the date-only ISO form `YYYY-MM-DD`; any other text, or
   * a day the month does not have, is an invalid date.
   */
  function ParseIsoDate(s: string): (r: Option<Date>)
    ensures r.Some? ==> ValidDate(r.value)
  {
    if |s| == 10 && s[4] == '-' && s[7] == '-'
       && AllDigits(s[..4]) && AllDigits(s[5..7]) && AllDigits(s[8..])
    then
      var d := Date(DigitsValue(s[..4]), DigitsValue(s[5..7]), DigitsValue(s[8..]));
      if ValidDate(d) then Some(d) else None
    else None
  }

  /** Where the fields of a `YYYY-MM-DD` text sit. */
  lemma IsoTextLayout(y: string, m: string, dd: string)
    requires |y| == 4 && |m| == 2 && |dd| == 2
    ensures var s := y + "-" + m + "-" + dd;
      && |s| == 10 && s[4] == '-' && s[7] == '-'
      && s[..4] == y && s[5..7] == m && s[8..] == dd
  {
  }

  /** An ISO date with a four-digit year parses back to itself. */
  lemma ParseFormat(d: Date)
    requires ValidDate(d) && 1000 <= d.year <= 9999
    ensures ParseIsoDate(FormatIsoDate(d)) == Some(d)
  {
    var y, m, dd := NatToString(d.year), TwoDigits(d.month), TwoDigits(d.day);
    NatToStringLength(d.year);
    DigitsRoundTrip(d.year);
    TwoDigitsRoundTrip(d.month);
    TwoDigitsRoundTrip(d.day);
    IsoTextLayout(y, m, dd);
    var s := FormatIsoDate(d);
    assert s == y + "-" + m + "-" + dd;
    assert Date(DigitsValue(s[..4]), DigitsValue(s[5..7]), DigitsValue(s[8..])) == d;
  }

  /** The text an invalid date prints as, `${NaN}-${"NaN"}-${"NaN"}`. */
  const INVALID_DATE_TEXT: string := "NaN-NaN-NaN"

  /** `calculateExpireDate`: the start date plus `monthsToAdd` months, as ISO text. */
  function CalculateExpireDate(startDate: string, monthsToAdd: nat): string {
    if startDate == "" then ""
    else match ParseIsoDate(startDate)
      case None => INVALID_DATE_TEXT
      case Some(d) => FormatIsoDate(AddMonths(d, monthsToAdd))
  }

  /**
   * The expiry of a well-formed start date is the ISO text of the date
   * `AddMonths` computes; an empty start gives an empty expiry.
   */
  lemma ExpireDateOfIso(d: Date, k: nat)
    requires ValidDate(d) && 1000 <= d.year <= 9999
    ensures CalculateExpireDate(FormatIsoDate(d), k) == FormatIsoDate(AddMonths(d, k))
    ensures CalculateExpireDate("", k) == ""
  {
    ParseFormat(d);
  }

  // ---------------------------------------------------------------------------
  // Display form
  // ---------------------------------------------------------------------------

  const DISPLAY_PLACEHOLDER: string := "DD/MM/YYYY"

  /** Destructuring `const [a, b, c] = parts`: a missing element prints as `undefined`. */
  function Field(parts: seq<string>, i: nat): string {
    if i < |parts| then parts[i] else "undefined"
  }

  /** `formatDateForDisplay`. */
  function FormatDateForDisplay(dateString: string): string {
    if dateString == "" then DISPLAY_PLACEHOLDER
    else
      var parts := Split(dateString, "-");
      Field(parts, 2) + "/" + Field(parts, 1) + "/" + Field(parts, 0)
  }

  /**
   * The display form reverses the three `-`-separated fields; only the empty
   * string gives the placeholder.
   */
  lemma DisplayReversesFields(y: string, m: string, d: string)
    requires '-' !in y && '-' !in m && '-' !in d
    ensures FormatDateForDisplay(y + "-" + m + "-" + d) == d + "/" + m + "/" + y
    ensures FormatDateForDisplay("") == DISPLAY_PLACEHOLDER
  {
    var s := y + "-" + m + "-" + d;
    assert [y, m, d][1..] == [m, d] && [m, d][1..] == [d];
    assert Join([d], "-") == d;
    assert Join([m, d], "-") == m + "-" + d;
    assert s == Join([y, m, d], "-");
    SplitJoin([y, m, d], '-');
    assert Split(s, "-") == [y, m, d];
  }

  /** A string of digits holds no other character. */
  lemma DigitsAvoid(s: string, c: char)
    requires AllDigits(s) && !IsDigit(c)
    ensures c !in s
  {
    forall i | 0 <= i < |s| ensures s[i] != c {
      assert IsDigit(s[i]);
    }
  }

  /** A formatted date displays as zero-padded day, month, then year. */
  lemma DisplayOfIso(d: Date)
    requires ValidDate(d)
    ensures FormatDateForDisplay(FormatIsoDate(d)) ==
      TwoDigits(d.day) + "/" + TwoDigits(d.month) + "/" + NatToString(d.year)
  {
    DigitsAvoid(NatToString(d.year), '-');
    DigitsAvoid(TwoDigits(d.month), '-') by { TwoDigitsRoundTrip(d.month); }
    DigitsAvoid(TwoDigits(d.day), '-') by { TwoDigitsRoundTrip(d.day); }
    DisplayReversesFields(NatToString(d.year), TwoDigits(d.month), TwoDigits(d.day));
  }

  /** Padding adds only zeros, so a padded number holds no non-digit. */
  lemma TwoDigitsAvoid(n: nat, c: char)
    requires !IsDigit(c)
    ensures c !in TwoDigits(n)
  {
    var s, r := NatToString(n), TwoDigits(n);
    var k := |r| - |s|;
    forall i | 0 <= i < |r| ensures r[i] != c {
      if i >= k {
        assert r[i] == r[k..][i - k];
      }
    }
  }

  /** An ISO date is written with digits and dashes only. */
  lemma IsoDateAvoids(d: Date, c: char)
    requires ValidDate(d) && !IsDigit(c) && c != '-'
    ensures c !in FormatIsoDate(d)
  {
    DigitsAvoid(NatToString(d.year), c);
    TwoDigitsAvoid(d.month, c);
    TwoDigitsAvoid(d.day, c);
  }

  /** The expiry text holds only digits, dashes and the letters of `NaN`. */
  lemma ExpireDateAvoids(startDate: string, monthsToAdd: nat, c: char)
    requires !IsDigit(c) && c != '-' && c !in INVALID_DATE_TEXT
    ensures c !in CalculateExpireDate(startDate, monthsToAdd)
  {
    match ParseIsoDate(startDate)
    case None =>
    case Some(d) => IsoDateAvoids(AddMonths(d, monthsToAdd), c);
  }

  /** The display form holds no character beyond those of its input, the slashes and its fixed words. */
  lemma DisplayAvoids(s: string, c: char)
    requires c !in s && c != '/' && c !in "undefined" && c !in DISPLAY_PLACEHOLDER
    ensures c !in FormatDateForDisplay(s)
  {
    if s != "" {
      SplitPiecesAvoid(s, "-", c);
    }
  }

  /** An invalid expiry shows as `NaN/NaN/NaN`. */
  lemma DisplayOfInvalid(s: string)
    requires s == INVALID_DATE_TEXT
    ensures FormatDateForDisplay(s) == "NaN/NaN/NaN"
  {
    InvalidTextFields(s);
    DisplayOfFields(s, "NaN", "NaN", "NaN");
  }

  lemma InvalidTextFields(s: string)
    requires s == INVALID_DATE_TEXT
    ensures s == "NaN" + "-" + "NaN" + "-" + "NaN"
    ensures "NaN" + "/" + "NaN" + "/" + "NaN" == "NaN/NaN/NaN"
  {
  }

  /** `DisplayReversesFields` for a text already known to be the three fields. */
  lemma DisplayOfFields(s: string, y: string, m: string, d: string)
    requires '-' !in y && '-' !in m && '-' !in d && s == y + "-" + m + "-" + d
    ensures FormatDateForDisplay(s) == d + "/" + m + "/" + y
  {
    DisplayReversesFields(y, m, d);
  }

  /** A non-empty string without a dash displays with `undefined` day and month. */
  lemma DisplayWithoutDash(s: string)
    requires s != [] && '-' !in s
    ensures FormatDateForDisplay(s) == "undefined/undefined/" + s
  {
    NotContainsFirst(s, "-");
    SplitNoSeparator(s, "-");
  }

  lemma ExampleFields(s: string)
    requires s == "2024-01-05"
    ensures s == "2024" + "-" + "01" + "-" + "05"
    ensures "05" + "/" + "01" + "/" + "2024" == "05/01/2024"
  {
  }

  lemma DisplayExample(s: string)
    requires s == "2024-01-05"
    ensures FormatDateForDisplay(s) == "05/01/2024"
  {
    ExampleFields(s);
    DisplayOfFields(s, "2024", "01", "05");
  }
}
