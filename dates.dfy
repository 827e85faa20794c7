/** `parse_date` (icscards-pdf-to-csv.py:180-211) and the part of Python's
    `datetime.date` it relies on: valid dates, their order, and adding days.
    A date is compared and shifted through its proleptic Gregorian ordinal,
    exactly as `date.toordinal` numbers days (0001-01-01 is day 1). */
module Dates {
  import opened Base
  import opened Text

  datatype Ymd = Ymd(year: int, month: int, day: int)

  predicate IsLeap(year: int) {
    year % 4 == 0 && (year % 100 != 0 || year % 400 == 0)
  }

  function DaysInMonth(year: int, month: int): int
    requires 1 <= month <= 12
  {
    if month == 2 && IsLeap(year) then 29 else [31, 28, 31, 30, 31, 30, 31, 31, 30, 31, 30, 31][month - 1]
  }

  /** What `date(year, month, day)` accepts. */
  predicate IsValid(d: Ymd) {
    1 <= d.year <= 9999 && 1 <= d.month <= 12 && 1 <= d.day <= DaysInMonth(d.year, d.month)
  }

  type Date = d: Ymd | IsValid(d) witness Ymd(1, 1, 1)

  /** Days in the years before `year`. */
  function DaysBeforeYear(year: int): int
    requires year >= 1
  {
    var y := year - 1;
    y * 365 + y / 4 - y / 100 + y / 400
  }

  /** Days in the months of `year` before `month`. */
  function DaysBeforeMonth(year: int, month: int): int
    requires 1 <= month <= 12
  {
    [0, 31, 59, 90, 120, 151, 181, 212, 243, 273, 304, 334][month - 1] +
    (if month > 2 && IsLeap(year) then 1 else 0)
  }

  /** `d.toordinal()` */
  function Ordinal(d: Date): int {
    DaysBeforeYear(d.year) + DaysBeforeMonth(d.year, d.month) + d.day
  }

  /** The ordinal of 9999-12-31, the last date Python can represent. */
  const MaxOrdinal: int := 3652059

  /** Python orders dates by year, then month, then day. */
  predicate Before(a: Ymd, b: Ymd) {
    a.year < b.year || (a.year == b.year && (a.month < b.month || (a.month == b.month && a.day < b.day)))
  }

  // ---------------------------------------------------------------------
  // The ordinal orders dates as Python does.

  /** Moving to the next number adds one to `n / k` exactly at a multiple of `k`. */
  lemma DivStep(n: int)
    requires n >= 0
    ensures (n + 1) / 4 == n / 4 + (if (n + 1) % 4 == 0 then 1 else 0)
    ensures (n + 1) / 100 == n / 100 + (if (n + 1) % 100 == 0 then 1 else 0)
    ensures (n + 1) / 400 == n / 400 + (if (n + 1) % 400 == 0 then 1 else 0)
  {
  }

  /** A year adds 365 days, or 366 in a leap year. */
  lemma DaysBeforeNextYear(year: int)
    requires year >= 1
    ensures DaysBeforeYear(year + 1) == DaysBeforeYear(year) + (if IsLeap(year) then 366 else 365)
  {
    var y := year - 1;
    DivStep(y);
    var a, b, c := year / 4 - y / 4, year / 100 - y / 100, year / 400 - y / 400;
    assert a == (if year % 4 == 0 then 1 else 0);
    assert b == (if year % 100 == 0 then 1 else 0);
    assert c == (if year % 400 == 0 then 1 else 0);
    assert DaysBeforeYear(year + 1) == year * 365 + year / 4 - year / 100 + year / 400;
    assert DaysBeforeYear(year) == y * 365 + y / 4 - y / 100 + y / 400;
    assert DaysBeforeYear(year + 1) - DaysBeforeYear(year) == 365 + a - b + c;
    MultiplesNest(year);
  }

  /** A multiple of 400 is a multiple of 100, and a multiple of 100 one of 4. */
  lemma MultiplesNest(n: int)
    ensures n % 400 == 0 ==> n % 100 == 0
    ensures n % 100 == 0 ==> n % 4 == 0
  {
    if n % 400 == 0 {
      var q := n / 400;
      assert n == 100 * (4 * q);
    }
    if n % 100 == 0 {
      var q := n / 100;
      assert n == 4 * (25 * q);
    }
  }

  lemma {:induction false} DaysBeforeYearGrows(a: int, b: int)
    requires 1 <= a <= b
    ensures DaysBeforeYear(a) + 365 * (b - a) <= DaysBeforeYear(b)
    decreases b - a
  {
    if a < b {
      DaysBeforeNextYear(a);
      DaysBeforeYearGrows(a + 1, b);
    }
  }

  /** The months of a year fill it without gaps. */
  lemma MonthsFillYear(year: int, month: int)
    requires 1 <= month <= 12
    ensures DaysBeforeMonth(year, month) + DaysInMonth(year, month) ==
      (if month == 12 then (if IsLeap(year) then 366 else 365) else DaysBeforeMonth(year, month + 1))
  {
  }

  lemma {:induction false} DaysBeforeMonthGrows(year: int, a: int, b: int)
    requires 1 <= a <= b <= 12
    ensures DaysBeforeMonth(year, a) + DaysInMonth(year, a) <= DaysBeforeMonth(year, b) || a == b
    decreases b - a
  {
    if a < b {
      MonthsFillYear(year, a);
      if a + 1 < b {
        DaysBeforeMonthGrows(year, a + 1, b);
        MonthsFillYear(year, a + 1);
      }
    }
  }

  /** A date's ordinal lies within its own year. */
  lemma OrdinalWithinYear(d: Date)
    ensures DaysBeforeYear(d.year) < Ordinal(d) <= DaysBeforeYear(d.year + 1)
  {
    DaysBeforeNextYear(d.year);
    MonthsFillYear(d.year, d.month);
    if d.month < 12 {
      DaysBeforeMonthGrows(d.year, d.month + 1, 12);
      MonthsFillYear(d.year, 12);
    }
  }

  /** Comparing ordinals is comparing dates. */
  lemma OrdinalOrder(a: Date, b: Date)
    ensures Before(a, b) <==> Ordinal(a) < Ordinal(b)
    ensures a == b <==> Ordinal(a) == Ordinal(b)
  {
    if a.year < b.year {
      EarlierYear(a, b);
    } else if b.year < a.year {
      EarlierYear(b, a);
    } else if a.month < b.month {
      DaysBeforeMonthGrows(a.year, a.month, b.month);
    } else if b.month < a.month {
      DaysBeforeMonthGrows(a.year, b.month, a.month);
    }
  }

  /** Any date of an earlier year has a smaller ordinal. */
  lemma EarlierYear(a: Date, b: Date)
    requires a.year < b.year
    ensures Ordinal(a) < Ordinal(b)
  {
    OrdinalWithinYear(a);
    OrdinalWithinYear(b);
    DaysBeforeYearGrows(a.year + 1, b.year);
  }

  lemma MaxOrdinalIsLastDate()
    ensures Ordinal(Ymd(9999, 12, 31)) == MaxOrdinal
  {
  }

  // ---------------------------------------------------------------------
  // parse_date

  /** The month of a lower-case three-letter key, Dutch or English; any other
      key is a KeyError. */
  function MonthOfKey(key: string): Result<int> {
    if key == "jan" then Ok(1)
    else if key == "feb" then Ok(2)
    else if key == "maa" || key == "mar" || key == "mrt" then Ok(3)
    else if key == "apr" then Ok(4)
    else if key == "mei" || key == "may" then Ok(5)
    else if key == "jun" then Ok(6)
    else if key == "jul" then Ok(7)
    else if key == "aug" then Ok(8)
    else if key == "sep" then Ok(9)
    else if key == "okt" || key == "oct" then Ok(10)
    else if key == "nov" then Ok(11)
    else if key == "dec" then Ok(12)
    else Err(KeyError)
  }

  /** `MONTHS[month_str[:3].lower()]`: the first three letters of a Dutch
      or English month name, in any case; anything else is a KeyError. */
  function MonthNumber(name: string): (r: Result<int>)
    ensures r.Ok? ==> 1 <= r.value <= 12
    ensures r.Err? ==> r.error == KeyError
  {
    MonthOfKey(Lower(if |name| < 3 then name else name[..3]))
  }

  /** `int(word)`, failing the date as a ParseError. */
  function DateNumber(word: string): Result<int> {
    match ParseInt(word)
    case None => Err(ParseError)
    case Some(n) => Ok(n)
  }

  /** Whether `n` fits the C `int` that `date()` reads each argument into. */
  predicate FitsCInt(n: int) {
    -0x8000_0000 <= n <= 0x7FFF_FFFF
  }

  /** `date(year, month, day)`: an OverflowError when an argument does not fit
      a C `int`, then a ValueError unless it is a valid date. */
  function MakeDate(year: int, month: int, day: int): (r: Result<Date>)
    ensures r.Ok? <==> IsValid(Ymd(year, month, day))
    ensures r.Ok? ==> r.value == Ymd(year, month, day)
    ensures r.Err? ==>
      r.error == if FitsCInt(year) && FitsCInt(month) && FitsCInt(day) then ValueError else OverflowError
  {
    if !(FitsCInt(year) && FitsCInt(month) && FitsCInt(day)) then Err(OverflowError)
    else if IsValid(Ymd(year, month, day)) then Ok(Ymd(year, month, day))
    else Err(ValueError)
  }

  /** How many days after the hint a partial date may fall. */
  const HintTolerance: int := 40

  /** The year of a day and month with no year: the hint's year, or the year
      before when that date lies more than 40 days after the hint.
      Python builds `date(hint.year, month, day)` first (an OverflowError when
      the day does not fit a C `int`, a ValueError when the date is invalid),
      then `hint + 40 days` (an OverflowError past 9999-12-31). */
  function CompleteDate(day: int, month: int, hint: Date): (r: Result<Date>)
    requires 1 <= month <= 12
    ensures r.Ok? ==> r.value.month == month && r.value.day == day
    ensures r.Ok? ==> Ordinal(r.value) <= Ordinal(hint) + HintTolerance
    ensures r.Ok? ==> r.value.year == hint.year || r.value.year == hint.year - 1
    ensures r.Ok? && r.value.year != hint.year ==>
      IsValid(Ymd(hint.year, month, day)) && Ordinal(Ymd(hint.year, month, day)) > Ordinal(hint) + HintTolerance
    ensures r.Err? ==> r.error == ValueError || r.error == OverflowError
  {
    var candidate :- MakeDate(hint.year, month, day);
    if Ordinal(hint) + HintTolerance > MaxOrdinal then Err(OverflowError)
    else if Ordinal(candidate) > Ordinal(hint) + HintTolerance then
      var earlier := MakeDate(hint.year - 1, month, day);
      if earlier.Ok? then
        OrdinalWithinYear(earlier.value);
        OrdinalWithinYear(hint);
        earlier
      else earlier
    else Ok(candidate)
  }

  /** `parse_date(date_str, year_hint)`. The failures come in Python's order:
      a word count other than 2 or 3, a non-integer day, an unknown month
      (KeyError), a non-integer year, a missing hint for a partial date. */
  function ParseDate(s: string, hint: Option<Date>): (r: Result<Date>)
    ensures var items := Words(s);
      (|items| != 2 && |items| != 3 ==> r == Err(ParseError)) &&
      (|items| in {2, 3} && ParseInt(items[0]).None? ==> r == Err(ParseError)) &&
      (|items| in {2, 3} && ParseInt(items[0]).Some? && MonthNumber(items[1]).Err? ==> r == Err(KeyError)) &&
      (|items| == 3 && ParseInt(items[0]).Some? && MonthNumber(items[1]).Ok? && ParseInt(items[2]).None? ==>
         r == Err(ParseError)) &&
      (|items| == 2 && ParseInt(items[0]).Some? && MonthNumber(items[1]).Ok? && hint.None? ==>
         r == Err(ParseError))
    ensures r.Err? ==> r.error in {ParseError, KeyError, ValueError, OverflowError}
    ensures r.Ok? && hint.None? ==> |Words(s)| == 3
  {
    var items := Words(s);
    if |items| != 2 && |items| != 3 then Err(ParseError)
    else
      var day :- DateNumber(items[0]);
      var month :- MonthNumber(items[1]);
      if |items| == 3 then
        var year :- DateNumber(items[2]);
        MakeDate(year, month, day)
      else if hint.None? then Err(ParseError)
      else CompleteDate(day, month, hint.value)
  }

  /** A full date is taken as written, whatever the hint. */
  lemma FullDateIgnoresHint(s: string, hint: Option<Date>)
    requires |Words(s)| == 3
    ensures ParseDate(s, hint) == ParseDate(s, None)
    ensures ParseDate(s, hint).Ok? ==>
      var d := ParseDate(s, hint).value;
      ParseInt(Words(s)[0]) == Some(d.day) && MonthNumber(Words(s)[1]) == Ok(d.month) &&
      ParseInt(Words(s)[2]) == Some(d.year)
  {
  }

  /** A day and month without a year never land more than 40 days after the
      hint: they take the hint's year, or the year before exactly when the
      hint's year would put them past that bound. */
  lemma PartialDateRollover(s: string, hint: Date)
    requires |Words(s)| == 2
    requires ParseDate(s, Some(hint)).Ok?
    ensures var d := ParseDate(s, Some(hint)).value;
      var items := Words(s);
      ParseInt(items[0]) == Some(d.day) && MonthNumber(items[1]) == Ok(d.month) &&
      Ordinal(d) <= Ordinal(hint) + HintTolerance &&
      IsValid(Ymd(hint.year, d.month, d.day)) &&
      (d.year == hint.year - 1 <==> Ordinal(Ymd(hint.year, d.month, d.day)) > Ordinal(hint) + HintTolerance) &&
      (d.year == hint.year || d.year == hint.year - 1)
  {
  }

  // ---------------------------------------------------------------------
  // The way the statement prints a date, as the partner of ParseDate.

  /** The Dutch abbreviation of a month, as the statement prints it. */
  function MonthAbbreviation(month: int): string
    requires 1 <= month <= 12
  {
    ["jan", "feb", "mrt", "apr", "mei", "jun", "jul", "aug", "sep", "okt", "nov", "dec"][month - 1]
  }

  /** "28 dec 2024" */
  function FormatDate(d: Date): string {
    Join([NatToString(d.day), MonthAbbreviation(d.month), NatToString(d.year)], " ")
  }

  /** "28 dec", as dates appear in the transaction table. */
  function FormatDayMonth(d: Date): string {
    Join([NatToString(d.day), MonthAbbreviation(d.month)], " ")
  }

  lemma MonthOfAbbreviation(month: int)
    requires 1 <= month <= 12
    ensures MonthNumber(MonthAbbreviation(month)) == Ok(month)
  {
    var a := MonthAbbreviation(month);
    assert |a| == 3 && a[..3] == a;
    forall k | 0 <= k < |a|
      ensures LowerChar(a[k]) == a[k]
    {
      assert 'a' <= a[k] <= 'z';
    }
    assert Lower(a) == a;
    assert MonthNumber(a) == MonthOfKey(a);
    KeyOfAbbreviation(month);
  }

  lemma KeyOfAbbreviation(month: int)
    requires 1 <= month <= 12
    ensures MonthOfKey(MonthAbbreviation(month)) == Ok(month)
  {
    if month <= 6 {
      KeysOfFirstHalf(month);
    } else {
      KeysOfSecondHalf(month);
    }
  }

  /** January to June. */
  lemma KeysOfFirstHalf(month: int)
    requires 1 <= month <= 6
    ensures MonthOfKey(MonthAbbreviation(month)) == Ok(month)
  {
    if month == 1 {
      assert MonthOfKey("jan") == Ok(1);
    } else if month == 2 {
      assert MonthOfKey("feb") == Ok(2);
    } else if month == 3 {
      assert MonthOfKey("mrt") == Ok(3);
    } else if month == 4 {
      assert MonthOfKey("apr") == Ok(4);
    } else if month == 5 {
      assert MonthOfKey("mei") == Ok(5);
    } else {
      assert MonthOfKey("jun") == Ok(6);
    }
  }

  /** July to December. */
  lemma KeysOfSecondHalf(month: int)
    requires 7 <= month <= 12
    ensures MonthOfKey(MonthAbbreviation(month)) == Ok(month)
  {
    if month <= 9 {
      KeysOfThirdQuarter(month);
    } else {
      KeysOfFourthQuarter(month);
    }
  }

  lemma KeysOfThirdQuarter(month: int)
    requires 7 <= month <= 9
    ensures MonthOfKey(MonthAbbreviation(month)) == Ok(month)
  {
    if month == 7 {
      assert MonthOfKey("jul") == Ok(7);
    } else if month == 8 {
      assert MonthOfKey("aug") == Ok(8);
    } else {
      assert MonthOfKey("sep") == Ok(9);
    }
  }

  lemma KeysOfFourthQuarter(month: int)
    requires 10 <= month <= 12
    ensures MonthOfKey(MonthAbbreviation(month)) == Ok(month)
  {
    if month == 10 {
      assert MonthOfKey("okt") == Ok(10);
    } else if month == 11 {
      assert MonthOfKey("nov") == Ok(11);
    } else {
      assert MonthOfKey("dec") == Ok(12);
    }
  }

  lemma NumeralIsWord(n: nat)
    ensures IsWord(NatToString(n))
  {
    var s := NatToString(n);
    forall k | 0 <= k < |s|
      ensures !IsSpace(s[k])
    {
      assert IsDigit(s[k]);
    }
  }

  /** A printed date reads back as the same date. */
  lemma DateRoundTrip(d: Date, hint: Option<Date>)
    ensures ParseDate(FormatDate(d), hint) == Ok(d)
  {
    PrintedParts(d.day, d.month, d.year);
  }

  /** A year too large for a C `int` stops `date()` with an OverflowError
      before the calendar is consulted, whatever the day and month. */
  lemma OversizedYear(day: nat, month: int, year: nat)
    requires 1 <= month <= 12 && year > 0x7FFF_FFFF
    ensures ParseDate(Join([NatToString(day), MonthAbbreviation(month), NatToString(year)], " "), None) ==
      Err(OverflowError)
  {
    var parts := [NatToString(day), MonthAbbreviation(month), NatToString(year)];
    PrintedParts(day, month, year);
    assert DateNumber(parts[0]) == Ok(day as int) && DateNumber(parts[2]) == Ok(year as int);
    assert MakeDate(year, month, day) == Err(OverflowError);
  }

  /** The words of a printed date, and what each reads as. */
  lemma PrintedParts(day: nat, month: int, year: nat)
    requires 1 <= month <= 12
    ensures var parts := [NatToString(day), MonthAbbreviation(month), NatToString(year)];
      Words(Join(parts, " ")) == parts &&
      ParseInt(parts[0]) == Some(day) && MonthNumber(parts[1]) == Ok(month) && ParseInt(parts[2]) == Some(year)
  {
    var parts := [NatToString(day), MonthAbbreviation(month), NatToString(year)];
    NumeralIsWord(day);
    NumeralIsWord(year);
    WordsOfJoin(parts);
    IntRoundTrip(day);
    IntRoundTrip(year);
    MonthOfAbbreviation(month);
  }

  /** A printed day and month read back as that day and month, in the year
      the rollover rule picks for them. */
  lemma DayMonthRoundTrip(d: Date, hint: Date)
    ensures ParseDate(FormatDayMonth(d), Some(hint)) == CompleteDate(d.day, d.month, hint)
  {
    var parts := [NatToString(d.day), MonthAbbreviation(d.month)];
    NumeralIsWord(d.day);
    WordsOfJoin(parts);
    IntRoundTrip(d.day);
    MonthOfAbbreviation(d.month);
  }

  /** A statement of 20 January 2025 lists "28 dec" as 28 December 2024, and
      "5 jan" as 5 January 2025. */
  lemma RolloverExample(hint: Date)
    requires hint == Ymd(2025, 1, 20)
    ensures CompleteDate(28, 12, hint) == Ok(Ymd(2024, 12, 28))
    ensures CompleteDate(5, 1, hint) == Ok(Ymd(2025, 1, 5))
  {
    assert DaysBeforeYear(2025) < MaxOrdinal - 400;
  }
}
