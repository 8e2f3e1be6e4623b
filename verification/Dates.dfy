/** Calendar dates, Monday-first weeks, and the text the URL and the database carry. */
module Dates {
  import opened Base
  import opened Decimal

  datatype Ymd = Ymd(year: int, month: int, day: int)

  predicate IsLeap(year: int) {
    year % 4 == 0 && (year % 100 != 0 || year % 400 == 0)
  }

  function DaysIn(year: int, month: int): nat {
    if month == 2 then (if IsLeap(year) then 29 else 28)
    else if month == 4 || month == 6 || month == 9 || month == 11 then 30
    else 31
  }

  predicate IsDate(d: Ymd) {
    1 <= d.month <= 12 && 1 <= d.day <= DaysIn(d.year, d.month)
  }

  /** A day of the proleptic Gregorian calendar. */
  type Date = d: Ymd | IsDate(d) witness Ymd(1970, 1, 1)

  predicate Before(a: Date, b: Date) {
    a.year < b.year || (a.year == b.year && (a.month < b.month || (a.month == b.month && a.day < b.day)))
  }

  /** The years chrono 0.4 can represent: its days are these years' days. */
  const MIN_YEAR := -262143
  const MAX_YEAR := 262142

  predicate InLibrary(d: Date) {
    MIN_YEAR <= d.year <= MAX_YEAR
  }

  /** A day there is a value for, and so one that can be read, stored and asked for. */
  type NaiveDate = d: Date | InLibrary(d) witness Ymd(1970, 1, 1)

  /** Years whose text carries no sign. */
  predicate Plain(d: Date) {
    0 <= d.year <= 9999
  }

  predicate NotAfter(a: Date, b: Date) {
    a == b || Before(a, b)
  }

  // ------------------------------------------------- the reference: a count

  function DaysInYear(year: int): nat {
    if IsLeap(year) then 366 else 365
  }

  /** Days from the first of year 0 to the first of `year`. */
  function YearStart(year: int): int
    decreases Magnitude(year)
  {
    if year == 0 then 0
    else if year > 0 then YearStart(year - 1) + DaysInYear(year - 1)
    else YearStart(year + 1) - DaysInYear(year)
  }

  function Magnitude(n: int): nat {
    if n < 0 then -n else n
  }

  function DaysBefore(year: int, month: int): nat
    requires 1 <= month <= 12
  {
    if month == 1 then 0 else DaysBefore(year, month - 1) + DaysIn(year, month - 1)
  }

  function DayNumber(d: Date): int {
    YearStart(d.year) + DaysBefore(d.year, d.month) + d.day - 1
  }

  lemma YearsFollowOn(year: int)
    ensures YearStart(year + 1) == YearStart(year) + DaysInYear(year)
  {}

  /** The same in closed form, by the leap years passed. */
  function YearStartByDivisions(year: int): int {
    365 * year + (year + 3) / 4 - (year + 99) / 100 + (year + 399) / 400
  }

  lemma YearLength(year: int)
    ensures YearStartByDivisions(year + 1) == YearStartByDivisions(year) + DaysInYear(year)
  {
    CeilStep(year, 4);
    CeilStep(year, 100);
    CeilStep(year, 400);
    Centuries(year);
  }

  lemma {:induction false} YearStartIs(year: int)
    ensures YearStart(year) == YearStartByDivisions(year)
    decreases Magnitude(year)
  {
    if year > 0 {
      YearStartIs(year - 1);
      YearLength(year - 1);
    } else if year < 0 {
      YearStartIs(year + 1);
      YearLength(year);
    }
  }

  lemma YearStartClosed(year: int)
    ensures YearStart(year) == 365 * year + (year + 3) / 4 - (year + 99) / 100 + (year + 399) / 400
  {
    YearStartIs(year);
  }

  lemma CeilStep(year: int, k: int)
    requires k == 4 || k == 100 || k == 400
    ensures (year + k) / k - (year + k - 1) / k == if year % k == 0 then 1 else 0
  {}

  lemma Centuries(year: int)
    ensures year % 100 == 0 ==> year % 4 == 0
    ensures year % 400 == 0 ==> year % 100 == 0
  {}

  lemma MonthsFillYear(year: int)
    ensures DaysBefore(year, 12) + DaysIn(year, 12) == DaysInYear(year)
  {
    assert DaysBefore(year, 2) == 31;
    assert DaysBefore(year, 3) == 31 + DaysIn(year, 2);
    assert DaysBefore(year, 5) == DaysBefore(year, 3) + 61;
    assert DaysBefore(year, 7) == DaysBefore(year, 5) + 61;
    assert DaysBefore(year, 9) == DaysBefore(year, 7) + 62;
    assert DaysBefore(year, 11) == DaysBefore(year, 9) + 61;
  }

  /**
   The count by years that begin in March, so that the leap day comes last:
   divisions only, no leap rule and no table of months.
   */
  function MarchCount(year: int, month: int, day: int): int {
    var y, m := if month <= 2 then year - 1 else year, if month <= 2 then month + 9 else month - 3;
    365 * y + y / 4 - y / 100 + y / 400 + (153 * m + 2) / 5 + day + 59
  }

  /** Days from 1 January to the first of the month, in a year that is not leap. */
  function CommonDays(month: int): int {
    if month <= 2 then 31 * (month - 1) else (153 * (month - 3) + 2) / 5 + 59
  }

  lemma {:induction false} DaysBeforeClosed(year: int, month: int)
    requires 1 <= month <= 12
    ensures DaysBefore(year, month) == CommonDays(month) + if month > 2 && IsLeap(year) then 1 else 0
  {
    if month > 1 { DaysBeforeClosed(year, month - 1); }
  }

  lemma LeapByDivisions(year: int)
    ensures year / 4 - year / 100 + year / 400
         == (year + 3) / 4 - (year + 99) / 100 + (year + 399) / 400 + (if IsLeap(year) then 1 else 0) - 1
  {
    CeilStep(year, 4);
    CeilStep(year, 100);
    CeilStep(year, 400);
    Centuries(year);
    OneBlockOn(year, 4);
    OneBlockOn(year, 100);
    OneBlockOn(year, 400);
  }

  lemma OneBlockOn(n: int, k: int)
    requires k == 4 || k == 100 || k == 400
    ensures (n + k) / k == n / k + 1
  {}

  lemma FromYearBefore(year: int)
    ensures (year - 1) / 4 - (year - 1) / 100 + (year - 1) / 400 == (year + 3) / 4 - (year + 99) / 100 + (year + 399) / 400 - 1
  {
    OneBlockOn(year - 1, 4);
    OneBlockOn(year - 1, 100);
    OneBlockOn(year - 1, 400);
  }

  /** The count of days, with leap years and the lengths of months as the divisions have them. */
  lemma DayNumberIsMarchCount(d: Date)
    ensures DayNumber(d) == MarchCount(d.year, d.month, d.day)
  {
    YearStartClosed(d.year);
    DaysBeforeClosed(d.year, d.month);
    if d.month <= 2 { FromYearBefore(d.year); } else { LeapByDivisions(d.year); }
  }

  /** Each month is as long as the divisions say it is from its first day to the next month's. */
  lemma MonthLengths(year: int, month: int)
    requires 1 <= month <= 12
    ensures DaysIn(year, month) == (if month < 12 then MarchCount(year, month + 1, 1) else MarchCount(year + 1, 1, 1))
                                   - MarchCount(year, month, 1)
  {
    DayNumberIsMarchCount(Ymd(year, month, 1));
    if month < 12 {
      DayNumberIsMarchCount(Ymd(year, month + 1, 1));
    } else {
      DayNumberIsMarchCount(Ymd(year + 1, 1, 1));
      MonthsFillYear(year);
      YearsFollowOn(year);
    }
  }

  lemma {:induction false} YearsAscend(a: int, b: int)
    requires a <= b
    ensures YearStart(a) <= YearStart(b)
    decreases b - a
  {
    if a < b {
      YearsAscend(a, b - 1);
      YearsFollowOn(b - 1);
    }
  }

  lemma {:induction false} MonthsAscend(year: int, a: int, b: int)
    requires 1 <= a < b <= 12
    ensures DaysBefore(year, a) + DaysIn(year, a) <= DaysBefore(year, b)
    decreases b - a
  {
    if a < b - 1 { MonthsAscend(year, a, b - 1); }
  }

  lemma WithinYear(d: Date)
    ensures YearStart(d.year) <= DayNumber(d) < YearStart(d.year + 1)
  {
    MonthsFillYear(d.year);
    YearsFollowOn(d.year);
    if d.month < 12 { MonthsAscend(d.year, d.month, 12); }
  }

  lemma BeforeCounts(a: Date, b: Date)
    requires Before(a, b)
    ensures DayNumber(a) < DayNumber(b)
  {
    if a.year < b.year {
      WithinYear(a);
      WithinYear(b);
      YearsAscend(a.year + 1, b.year);
    } else if a.month < b.month {
      MonthsAscend(a.year, a.month, b.month);
    }
  }

  /** Counting days and comparing dates are the same order, and no two dates share a count. */
  lemma OrderIsCount(a: Date, b: Date)
    ensures Before(a, b) <==> DayNumber(a) < DayNumber(b)
    ensures a == b <==> DayNumber(a) == DayNumber(b)
  {
    if Before(a, b) { BeforeCounts(a, b); } else if a != b { BeforeCounts(b, a); }
  }

  // ------------------------------------------------------------- stepping

  function Next(d: Date): Date {
    if d.day < DaysIn(d.year, d.month) then Ymd(d.year, d.month, d.day + 1)
    else if d.month < 12 then Ymd(d.year, d.month + 1, 1)
    else Ymd(d.year + 1, 1, 1)
  }

  function Previous(d: Date): Date {
    if d.day > 1 then Ymd(d.year, d.month, d.day - 1)
    else if d.month > 1 then Ymd(d.year, d.month - 1, DaysIn(d.year, d.month - 1))
    else Ymd(d.year - 1, 12, 31)
  }

  lemma NextCounts(d: Date)
    ensures DayNumber(Next(d)) == DayNumber(d) + 1
  {
    MonthsFillYear(d.year);
    YearsFollowOn(d.year);
  }

  lemma PreviousCounts(d: Date)
    ensures DayNumber(Previous(d)) == DayNumber(d) - 1
  {
    NextCounts(Previous(d));
    assert Next(Previous(d)) == d;
  }

  /** Adding days, forwards or back. */
  function Plus(d: Date, n: int): Date
    decreases if n < 0 then -n else n
  {
    if n == 0 then d else if n > 0 then Plus(Next(d), n - 1) else Plus(Previous(d), n + 1)
  }

  lemma {:induction false} PlusCounts(d: Date, n: int)
    ensures DayNumber(Plus(d, n)) == DayNumber(d) + n
    decreases if n < 0 then -n else n
  {
    if n > 0 {
      NextCounts(d);
      PlusCounts(Next(d), n - 1);
    } else if n < 0 {
      PreviousCounts(d);
      PlusCounts(Previous(d), n + 1);
    }
  }

  // ------------------------------------------------------ weeks and months

  /** Days since Monday; year 0 began on a Saturday. */
  function FromMonday(d: Date): (n: nat)
    ensures n < 7
  {
    Weekday(DayNumber(d))
  }

  function Weekday(n: int): (w: nat)
    ensures w < 7
  {
    (n + 5) % 7
  }

  lemma WeekdayShifts(n: int, m: int)
    requires m == n - Weekday(n)
    ensures Weekday(m) == 0 && Weekday(m + 6) == 6
  {}

  function WeekBounds(d: Date): (Date, Date) {
    var start := Plus(d, 0 - FromMonday(d));
    (start, Plus(start, 6))
  }

  function MonthBounds(d: Date): (Date, Date) {
    var start := Ymd(d.year, d.month, 1);
    var next := if d.month == 12 then Ymd(d.year + 1, 1, 1) else Ymd(d.year, d.month + 1, 1);
    (start, Plus(next, -1))
  }

  predicate InBounds(d: Date, bounds: (Date, Date)) {
    NotAfter(bounds.0, d) && NotAfter(d, bounds.1)
  }

  lemma KnownYears(year: int)
    ensures year == 1970 ==> YearStart(year) == 719528
    ensures year == 2026 ==> YearStart(year) == 739982 && DaysBefore(year, 9) == 243
  {
    YearStartClosed(year);
    assert DaysBefore(year, 2) == 31;
    assert DaysBefore(year, 3) == 31 + DaysIn(year, 2);
    assert DaysBefore(year, 5) == DaysBefore(year, 3) + 61;
    assert DaysBefore(year, 7) == DaysBefore(year, 5) + 61;
  }

  /** Two days known by name: the epoch was a Thursday, and 4 September 2026 is a Friday. */
  lemma KnownWeekdays(d: Date)
    ensures d.year == 1970 && d.month == 1 && d.day == 1 ==> FromMonday(d) == 3
    ensures d.year == 2026 && d.month == 9 && d.day == 4 ==> FromMonday(d) == 4
  {
    KnownYears(d.year);
    if d.year == 1970 && d.month == 1 && d.day == 1 {
      assert DayNumber(d) == 719528;
    } else if d.year == 2026 && d.month == 9 && d.day == 4 {
      assert DayNumber(d) == 739982 + 246;
    }
  }

  lemma WeekBoundsCount(d: Date)
    ensures var (start, end) := WeekBounds(d);
      && DayNumber(start) == DayNumber(d) - FromMonday(d) && DayNumber(end) == DayNumber(start) + 6
      && FromMonday(start) == 0 && FromMonday(end) == 6
  {
    var (start, end) := WeekBounds(d);
    PlusTo(d, 0 - FromMonday(d), start);
    PlusTo(start, 6, end);
    WeekdayShifts(DayNumber(d), DayNumber(start));
  }

  lemma PlusTo(d: Date, n: int, there: Date)
    requires there == Plus(d, n)
    ensures DayNumber(there) == DayNumber(d) + n
  {
    PlusCounts(d, n);
  }

  /** Weeks are Monday to Sunday and partition the days: a day is in another's week exactly when the weeks are one. */
  lemma WeeksPartition(a: Date, b: Date)
    ensures InBounds(a, WeekBounds(a))
    ensures InBounds(b, WeekBounds(a)) <==> WeekBounds(b) == WeekBounds(a)
  {
    InWeekCounts(a, a);
    InWeekCounts(a, b);
    WeekBoundsCount(a);
    WeekBoundsCount(b);
    SameWeek(DayNumber(a), DayNumber(b));
    OrderIsCount(WeekBounds(a).0, WeekBounds(b).0);
  }

  lemma InWeekCounts(a: Date, b: Date)
    ensures var start := DayNumber(WeekBounds(a).0);
            InBounds(b, WeekBounds(a)) <==> start <= DayNumber(b) <= start + 6
  {
    WeekBoundsCount(a);
    OrderIsCount(WeekBounds(a).0, b);
    OrderIsCount(b, WeekBounds(a).1);
  }

  lemma SameWeek(n: int, m: int)
    ensures n - Weekday(n) <= m <= n - Weekday(n) + 6 <==> m - Weekday(m) == n - Weekday(n)
  {}

  lemma MonthBoundsAre(d: Date)
    ensures MonthBounds(d) == (Ymd(d.year, d.month, 1), Ymd(d.year, d.month, DaysIn(d.year, d.month)))
  {
    var last := Ymd(d.year, d.month, DaysIn(d.year, d.month));
    assert Previous(Next(last)) == last;
  }

  /** By the divisions: from the first of the month to the day before the first of the next. */
  lemma MonthBoundsCount(d: Date)
    ensures var (start, end) := MonthBounds(d);
      && DayNumber(start) == MarchCount(d.year, d.month, 1)
      && DayNumber(end) + 1 == if d.month < 12 then MarchCount(d.year, d.month + 1, 1) else MarchCount(d.year + 1, 1, 1)
  {
    MonthBoundsAre(d);
    MonthLengths(d.year, d.month);
    DayNumberIsMarchCount(MonthBounds(d).0);
    DayNumberIsMarchCount(MonthBounds(d).1);
  }

  /** The month's bounds hold its days and no others. */
  lemma MonthsPartition(a: Date, b: Date)
    ensures InBounds(b, MonthBounds(a)) <==> b.year == a.year && b.month == a.month
  {
    MonthBoundsAre(a);
  }

  // ------------------------------------------------------------------ text

  /** The last `width` decimal digits. */
  function Fixed(n: nat, width: nat): (s: string)
    ensures |s| == width
  {
    if width == 0 then "" else Fixed(n / 10, width - 1) + [Digit(n % 10)]
  }

  /** At least four digits. */
  function YearDigits(n: nat): string {
    if n < 10000 then Fixed(n, 4) else Digits(n)
  }

  /** Four digits; years before 0 or after 9999 carry a sign. */
  function YearText(year: int): string {
    var digits := YearDigits(Magnitude(year));
    if year < 0 then "-" + digits else if year > 9999 then "+" + digits else digits
  }

  function ToIso(d: Date): string {
    YearText(d.year) + "-" + Fixed(d.month, 2) + "-" + Fixed(d.day, 2)
  }

  /** Sign and digits, leniently. */
  function ReadYear(s: string): Option<int> {
    var signed := s != "" && (s[0] == '-' || s[0] == '+');
    match ParseDigits(if signed then s[1..] else s)
    case None => None
    case Some(n) => Some(if s != "" && s[0] == '-' then 0 - n as int else n)
  }

  function ReadDate(s: string): Option<Date> {
    if |s| < 6 then None
    else
      match (ReadYear(s[..|s| - 6]), ParseDigits(s[|s| - 5..|s| - 3]), ParseDigits(s[|s| - 2..]))
      case (Some(year), Some(month), Some(day)) =>
        if IsDate(Ymd(year, month, day)) then Some(Ymd(year, month, day)) else None
      case _ => None
  }

  /** A lenient reading of a day the library has, kept only if it prints as what was read. */
  function ParseIso(s: string): Option<NaiveDate> {
    match ReadDate(s)
    case None => None
    case Some(d) => if InLibrary(d) && ToIso(d) == s then Some(d) else None
  }

  function Pow10(n: nat): (p: nat)
    ensures p >= 1
  {
    if n == 0 then 1 else 10 * Pow10(n - 1)
  }

  lemma {:induction false} ParseOfFixed(n: nat, width: nat)
    requires n < Pow10(width)
    ensures ParseDigits(Fixed(n, width)) == Some(n)
  {
    if width > 0 {
      ParseOfFixed(n / 10, width - 1);
      var s := Fixed(n, width);
      assert s[..|s| - 1] == Fixed(n / 10, width - 1);
    }
  }

  lemma DigitsFirst(n: nat)
    ensures '0' <= Digits(n)[0] <= '9'
  {
    assert Digits(n)[0] in Digits(n);
  }

  lemma {:induction false} FixedFirst(n: nat, width: nat)
    requires width > 0
    ensures '0' <= Fixed(n, width)[0] <= '9'
  {
    if width > 1 { FixedFirst(n / 10, width - 1); }
  }

  lemma ParseOfYearDigits(n: nat)
    ensures ParseDigits(YearDigits(n)) == Some(n)
    ensures YearDigits(n) != "" && '0' <= YearDigits(n)[0] <= '9'
  {
    assert Pow10(4) == 10000;
    if n < 10000 {
      ParseOfFixed(n, 4);
      FixedFirst(n, 4);
    } else {
      ParseOfDigits(n);
      DigitsFirst(n);
    }
  }

  lemma ReadYearOfText(year: int)
    ensures ReadYear(YearText(year)) == Some(year)
  {
    var n := Magnitude(year);
    ParseOfYearDigits(n);
    if year < 0 {
      ReadSigned('-', YearDigits(n), n);
    } else if year > 9999 {
      ReadSigned('+', YearDigits(n), n);
    } else {
      ReadUnsigned(YearDigits(n), n);
    }
  }

  lemma ReadSigned(sign: char, digits: string, n: nat)
    requires (sign == '-' || sign == '+') && ParseDigits(digits) == Some(n)
    ensures ReadYear([sign] + digits) == Some(if sign == '-' then 0 - n as int else n)
  {
    assert ([sign] + digits)[1..] == digits;
  }

  lemma ReadUnsigned(digits: string, n: nat)
    requires digits != "" && '0' <= digits[0] <= '9' && ParseDigits(digits) == Some(n)
    ensures ReadYear(digits) == Some(n)
  {}

  lemma ReadDateOfIso(d: Date)
    ensures ReadDate(ToIso(d)) == Some(d)
  {
    var s, year := ToIso(d), YearText(d.year);
    assert Pow10(2) == 100;
    ReadYearOfText(d.year);
    ParseOfFixed(d.month, 2);
    ParseOfFixed(d.day, 2);
    assert s[..|s| - 6] == year;
    assert s[|s| - 5..|s| - 3] == Fixed(d.month, 2);
    assert s[|s| - 2..] == Fixed(d.day, 2);
  }

  /** No two days share a text. */
  lemma ToIsoIsInjective(a: Date, b: Date)
    ensures ToIso(a) == ToIso(b) <==> a == b
  {
    ReadDateOfIso(a);
    ReadDateOfIso(b);
  }

  /** Strict: a text is read as a day exactly when it is that day's own text and the library has the day. */
  lemma ParseIsoIff(s: string, d: Date)
    ensures ParseIso(s) == Some(d) <==> ToIso(d) == s && -262143 <= d.year <= 262142
  {
    if ToIso(d) == s { ReadDateOfIso(d); }
  }

  /** It does not matter how lenient the reader is, so long as it reads back what is printed. */
  lemma AnyLenientReaderDoes(read: string -> Option<NaiveDate>, s: string)
    requires forall d: NaiveDate :: read(ToIso(d)) == Some(d)
    ensures (match read(s) case None => None case Some(d) => if ToIso(d) == s then Some(d) else None) == ParseIso(s)
  {
    if read(s).Some? && ToIso(read(s).value) == s { ParseIsoIff(s, read(s).value); }
    if ParseIso(s).Some? { assert read(ToIso(ParseIso(s).value)) == ParseIso(s); }
  }
}
