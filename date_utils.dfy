/** DateUtils: the age rule and the LocalDateTime conversion. "Today" and the
    system clock are parameters. */
module DateUtils {
  import opened Wrappers
  import opened Text
  import opened Exceptions

  /** java.time.LocalDate. */
  datatype LocalDate = LocalDate(year: int, month: int, day: int)

  /** A java.time.LocalDateTime reading, as a count of ticks; the core only
      stores, compares and converts these values. */
  type LocalDateTime = int

  /** java.time.OffsetDateTime: a local date-time and a zone offset in seconds. */
  datatype OffsetDateTime = OffsetDateTime(local: LocalDateTime, offsetSeconds: int)

  const MinYear := -999_999_999
  const MaxYear := 999_999_999

  /** Completed years from which a client counts as adult. */
  const AdultAge := 18

  predicate IsLeap(y: int) {
    y % 4 == 0 && (y % 100 != 0 || y % 400 == 0)
  }

  function LengthOfMonth(y: int, m: int): (n: int)
    requires 1 <= m <= 12
    ensures 28 <= n <= 31
  {
    if m == 2 then (if IsLeap(y) then 29 else 28)
    else if m == 4 || m == 6 || m == 9 || m == 11 then 30
    else 31
  }

  predicate ValidDate(d: LocalDate) {
    MinYear <= d.year <= MaxYear && 1 <= d.month <= 12 && 1 <= d.day <= LengthOfMonth(d.year, d.month)
  }

  function Min(a: int, b: int): int {
    if a <= b then a else b
  }

  /** The DateTimeParseException LocalDate.parse throws; every message it
      produces starts with this text (the rest, an index or a reason, is not
      modelled). */
  function ParseFailure(text: string): Exception {
    Other("java.time.format.DateTimeParseException", Some("Text '" + text + "' could not be parsed"))
  }

  /** The `yyyy` (year-of-era) field under strict parsing: exactly four digits
      without a sign, or a '+' followed by five to nineteen digits. */
  function ParseYearOfEra(field: string): Option<nat> {
    if |field| == 4 && AllDigits(field) then Some(DigitsValue(field))
    else if 6 <= |field| <= 20 && field[0] == '+' && AllDigits(field[1..]) then Some(DigitsValue(field[1..]))
    else None
  }

  /** LocalDate.parse(text, DateTimeFormatter.ofPattern("yyyy-MM-dd")): the
      text must be the year field, '-', two month digits, '-', two day
      digits and nothing else; the year-of-era must lie in 1..999999999, the
      month in 1..12 and the day in 1..31; the SMART resolver then moves a day
      past the end of its month back to the month's last day. */
  function ParseIsoDate(text: string): (r: Result<LocalDate, Exception>)
    ensures r.Success? ==> ValidDate(r.value) && 1 <= r.value.year
    ensures r.Failure? ==> r.error == ParseFailure(text)
    ensures |text| < 10 ==> r.Failure?
  {
    var n := |text|;
    if n < 10 || text[n - 6] != '-' || text[n - 3] != '-'
       || !AllDigits(text[n - 5..n - 3]) || !AllDigits(text[n - 2..])
    then Failure(ParseFailure(text))
    else
      match ParseYearOfEra(text[..n - 6])
      case None => Failure(ParseFailure(text))
      case Some(yoe) =>
        var moy := DigitsValue(text[n - 5..n - 3]);
        var dom := DigitsValue(text[n - 2..]);
        if !(1 <= yoe <= MaxYear) || !(1 <= moy <= 12) || !(1 <= dom <= 31) then Failure(ParseFailure(text))
        else Success(LocalDate(yoe, moy, Min(dom, LengthOfMonth(yoe, moy))))
  }

  /** date.format(DateTimeFormatter.ofPattern("yyyy-MM-dd")) for a year of at most four digits. */
  function FormatIsoDate(d: LocalDate): (s: string)
    requires 0 <= d.year <= 9999 && 1 <= d.month <= 12 && 1 <= d.day <= 31
  {
    PadDigits(d.year, 4) + "-" + PadDigits(d.month, 2) + "-" + PadDigits(d.day, 2)
  }

  /** Formatting a date and parsing the text back gives the date. */
  lemma ParseFormatRoundTrip(d: LocalDate)
    requires ValidDate(d) && 1 <= d.year <= 9999
    ensures ParseIsoDate(FormatIsoDate(d)) == Success(d)
  {
    var t := FormatIsoDate(d);
    assert |t| == 10;
    assert t[..4] == PadDigits(d.year, 4);
    assert t[5..7] == PadDigits(d.month, 2);
    assert t[8..] == PadDigits(d.day, 2);
    assert Power10(2) == 100;
    assert Power10(4) == 10000;
    PadDigitsValue(d.year, 4);
    PadDigitsValue(d.month, 2);
    PadDigitsValue(d.day, 2);
  }

  /** LocalDate.getProlepticMonth(). */
  function ProlepticMonth(d: LocalDate): int {
    d.year * 12 + d.month - 1
  }

  /** Java's integer division, which truncates toward zero. */
  function JavaDiv(a: int, b: int): int
    requires b > 0
  {
    if a >= 0 then a / b else -((-a) / b)
  }

  /** Period.between(start, end).getYears(): the month difference, moved one
      month toward zero when the day of month has not yet been reached (or,
      for a negative span, has been passed), divided by twelve with
      truncation. */
  function PeriodYears(start: LocalDate, end: LocalDate): int {
    var totalMonths := ProlepticMonth(end) - ProlepticMonth(start);
    var days := end.day - start.day;
    var months := if totalMonths > 0 && days < 0 then totalMonths - 1
                  else if totalMonths < 0 && days > 0 then totalMonths + 1
                  else totalMonths;
    JavaDiv(months, 12)
  }

  /** The age test on parsed dates. */
  predicate IsAdultOn(birth: LocalDate, today: LocalDate) {
    PeriodYears(birth, today) >= AdultAge
  }

  /** `a` falls on or before `b`, comparing year, month and day in turn. */
  predicate OnOrBefore(a: LocalDate, b: LocalDate) {
    a.year < b.year || (a.year == b.year && (a.month < b.month || (a.month == b.month && a.day <= b.day)))
  }

  /** The same month and day `years` later. For a birthday on 29 February this
      may be 29 February of a common year, which sorts after the 28th and
      before 1 March, exactly as Period.between counts it. */
  function Anniversary(birth: LocalDate, years: int): LocalDate {
    LocalDate(birth.year + years, birth.month, birth.day)
  }

  /** Reference definition of the age rule: a client is adult exactly when the
      eighteenth birthday is today or earlier. */
  lemma AdultIffEighteenthBirthdayReached(birth: LocalDate, today: LocalDate)
    requires 1 <= birth.month <= 12 && 1 <= today.month <= 12
    ensures IsAdultOn(birth, today) <==> OnOrBefore(Anniversary(birth, AdultAge), today)
  {
    var totalMonths := ProlepticMonth(today) - ProlepticMonth(birth);
    var days := today.day - birth.day;
    var months := if totalMonths > 0 && days < 0 then totalMonths - 1
                  else if totalMonths < 0 && days > 0 then totalMonths + 1
                  else totalMonths;
    assert PeriodYears(birth, today) == JavaDiv(months, 12);
    assert JavaDiv(months, 12) >= 18 <==> months >= 216 by {
      if months >= 0 {
        assert JavaDiv(months, 12) == months / 12;
      } else {
        assert JavaDiv(months, 12) <= 0;
      }
    }
    assert totalMonths == 12 * (today.year - birth.year) + (today.month - birth.month);
    var dy := today.year - (birth.year + 18);
    if dy > 0 {
      assert totalMonths >= 12 * 19 - 11;
    } else if dy < 0 {
      assert totalMonths <= 12 * 17 + 11;
    } else {
      assert totalMonths == 216 + (today.month - birth.month);
    }
  }

  /** IsAdult(birthDate) with LocalDate.now() as a parameter: a null birth date
      makes LocalDate.parse throw a NullPointerException, text that does not
      match yyyy-MM-dd a DateTimeParseException; otherwise the answer is
      whether the eighteenth birthday has been reached. */
  function IsAdult(birthDate: Option<string>, today: LocalDate): (r: Result<bool, Exception>)
    requires 1 <= today.month <= 12
    ensures birthDate.None? ==> r == Failure(NullPointer(Some("text")))
    ensures birthDate.Some? ==> (r.Failure? <==> ParseIsoDate(birthDate.value).Failure?)
    ensures birthDate.Some? && r.Failure? ==> r.error.Other? && r.error == ParseFailure(birthDate.value)
    ensures r.Success? ==>
              (r.value <==> OnOrBefore(Anniversary(ParseIsoDate(birthDate.value).value, AdultAge), today))
  {
    match birthDate
    case None => Failure(NullPointer(Some("text")))
    case Some(text) =>
      match ParseIsoDate(text)
      case Failure(e) => Failure(e)
      case Success(dateOfBirth) =>
        AdultIffEighteenthBirthdayReached(dateOfBirth, today);
        Success(IsAdultOn(dateOfBirth, today))
  }

  /** A birth date after today gives zero or fewer completed years, so the
      client is not adult. */
  lemma BornAfterTodayIsNotAdult(birth: LocalDate, today: LocalDate)
    requires 1 <= birth.month <= 12 && 1 <= today.month <= 12
    requires !OnOrBefore(birth, today)
    ensures PeriodYears(birth, today) <= 0 && !IsAdultOn(birth, today)
  {
    var totalMonths := ProlepticMonth(today) - ProlepticMonth(birth);
    assert totalMonths == 12 * (today.year - birth.year) + (today.month - birth.month);
    if today.year < birth.year {
      assert totalMonths < 0;
    } else {
      assert totalMonths <= 0;
    }
  }

  /** With today fixed, an earlier birth date never turns an adult into a non-adult. */
  lemma AdultMonotoneInBirthDate(earlier: LocalDate, later: LocalDate, today: LocalDate)
    requires 1 <= earlier.month <= 12 && 1 <= later.month <= 12 && 1 <= today.month <= 12
    requires OnOrBefore(earlier, later)
    requires IsAdultOn(later, today)
    ensures IsAdultOn(earlier, today)
  {
    AdultIffEighteenthBirthdayReached(later, today);
    AdultIffEighteenthBirthdayReached(earlier, today);
  }

  /** LocalDate.minusYears(n): the same month and day n years earlier, a
      29 February moved back to the 28th of a common year. */
  function MinusYears(d: LocalDate, n: int): (r: LocalDate)
    requires 1 <= d.month <= 12
    ensures r.year == d.year - n && r.month == d.month
  {
    LocalDate(d.year - n, d.month, Min(d.day, LengthOfMonth(d.year - n, d.month)))
  }

  /** LocalDate.plusDays(1). */
  function NextDay(d: LocalDate): LocalDate
    requires 1 <= d.month <= 12
  {
    if d.day < LengthOfMonth(d.year, d.month) then LocalDate(d.year, d.month, d.day + 1)
    else if d.month < 12 then LocalDate(d.year, d.month + 1, 1)
    else LocalDate(d.year + 1, 1, 1)
  }

  /** The two boundary cases, through the yyyy-MM-dd text the client detail
      carries: born exactly eighteen years ago counts as adult, born one day
      later does not. */
  lemma EighteenthBirthdayBoundary(today: LocalDate)
    requires ValidDate(today) && 19 <= today.year <= 9999
    ensures IsAdult(Some(FormatIsoDate(MinusYears(today, AdultAge))), today) == Success(true)
    ensures IsAdult(Some(FormatIsoDate(NextDay(MinusYears(today, AdultAge)))), today) == Success(false)
  {
    var exact := MinusYears(today, AdultAge);
    ParseFormatRoundTrip(exact);
    AdultIffEighteenthBirthdayReached(exact, today);
    var dayLater := NextDay(exact);
    ParseFormatRoundTrip(dayLater);
    AdultIffEighteenthBirthdayReached(dayLater, today);
  }

  /** DateUtils.convertToSystemOffsetDateTime, the system offset a parameter:
      null stays null, and a value keeps its local date-time. */
  function ConvertToSystemOffsetDateTime(localDateTime: Option<LocalDateTime>, systemOffset: int): (r: Option<OffsetDateTime>)
    ensures r.None? <==> localDateTime.None?
    ensures r.Some? ==> r.value.local == localDateTime.value && r.value.offsetSeconds == systemOffset
  {
    match localDateTime
    case None => None
    case Some(t) => Some(OffsetDateTime(t, systemOffset))
  }
}
