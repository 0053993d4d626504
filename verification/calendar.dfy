/**
 * Proleptic Gregorian civil dates, the day count used by ECMAScript's `Date.UTC`,
 * Python's naive `datetime` ordering and the `Y/m/d` text form shared by
 * Python's `strftime('%Y/%m/%d')` and PHP's `format("Y/m/d")`.
 */
module Calendar {

  import opened Wrappers
  import opened Text

  datatype Date = Date(year: int, month: int, day: int)

  predicate IsLeap(y: int) {
    y % 4 == 0 && (y % 100 != 0 || y % 400 == 0)
  }

  function DaysInMonth(y: int, m: int): (n: int)
    ensures 28 <= n <= 31
    ensures m == 2 ==> (n == 29 <==> IsLeap(y))
  {
    if m == 2 then (if IsLeap(y) then 29 else 28)
    else if m == 4 || m == 6 || m == 9 || m == 11 then 30
    else 31
  }

  predicate ValidDate(d: Date) {
    1 <= d.month <= 12 && 1 <= d.day <= DaysInMonth(d.year, d.month)
  }

  /** Chronological order on dates, field by field. */
  predicate DateBefore(a: Date, b: Date) {
    a.year < b.year
    || (a.year == b.year && a.month < b.month)
    || (a.year == b.year && a.month == b.month && a.day < b.day)
  }

  /** The calendar day after `d`. */
  function NextDay(d: Date): (r: Date)
    requires ValidDate(d)
    ensures ValidDate(r) && DateBefore(d, r)
  {
    if d.day < DaysInMonth(d.year, d.month) then Date(d.year, d.month, d.day + 1)
    else if d.month < 12 then Date(d.year, d.month + 1, 1)
    else Date(d.year + 1, 1, 1)
  }

  /** The calendar day before `d`. */
  function PrevDay(d: Date): (r: Date)
    requires ValidDate(d)
    ensures ValidDate(r) && DateBefore(r, d)
  {
    if d.day > 1 then Date(d.year, d.month, d.day - 1)
    else if d.month > 1 then Date(d.year, d.month - 1, DaysInMonth(d.year, d.month - 1))
    else Date(d.year - 1, 12, 31)
  }

  lemma PrevOfNext(d: Date)
    requires ValidDate(d)
    ensures PrevDay(NextDay(d)) == d
  {
  }

  lemma NextOfPrev(d: Date)
    requires ValidDate(d)
    ensures NextDay(PrevDay(d)) == d
  {
  }

  /** `d` moved by `n` days (PHP's `modify("+n day")` / `modify("-n day")`). */
  function AddDays(d: Date, n: int): (r: Date)
    requires ValidDate(d)
    ensures ValidDate(r)
    decreases if n >= 0 then n else -n
  {
    if n == 0 then d
    else if n > 0 then AddDays(NextDay(d), n - 1)
    else AddDays(PrevDay(d), n + 1)
  }

  /** Days from 1970-01-01 to the first of January of `y` (ECMAScript's DayFromYear). */
  function DayFromYear(y: int): int {
    365 * (y - 1970) + LeapDays(y)
  }

  /** Leap days from 1970 to the first of January of `y` (negative before 1970). */
  function LeapDays(y: int): int {
    (y - 1969) / 4 - (y - 1901) / 100 + (y - 1601) / 400
  }

  /** Days in the months of year `y` before month `m`. */
  function DaysBeforeMonth(y: int, m: int): int
    requires 1 <= m <= 12
  {
    var common :=
      match m
      case 1 => 0 case 2 => 31 case 3 => 59 case 4 => 90 case 5 => 120 case 6 => 151
      case 7 => 181 case 8 => 212 case 9 => 243 case 10 => 273 case 11 => 304 case _ => 334;
    if m > 2 && IsLeap(y) then common + 1 else common
  }

  /** Days from 1970-01-01 to `d` (negative before the epoch); `day` may lie outside the month. */
  function DayNumber(d: Date): int
    requires 1 <= d.month <= 12
  {
    DayFromYear(d.year) + DaysBeforeMonth(d.year, d.month) + d.day - 1
  }

  lemma EpochIsDayZero()
    ensures DayNumber(Date(1970, 1, 1)) == 0
  {
  }

  lemma LeapStep4(y: int)
    ensures (y + 1 - 1969) / 4 - (y - 1969) / 4 == if y % 4 == 0 then 1 else 0
  {
    var q, r := (y - 1969) / 4, (y - 1969) % 4;
    assert y == 4 * (q + 492) + r + 1;
    if r == 3 {
      assert y + 1 - 1969 == 4 * (q + 1);
    } else {
      assert y + 1 - 1969 == 4 * q + (r + 1);
    }
  }

  lemma LeapStep100(y: int)
    ensures (y + 1 - 1901) / 100 - (y - 1901) / 100 == if y % 100 == 0 then 1 else 0
  {
    var q, r := (y - 1901) / 100, (y - 1901) % 100;
    assert y == 100 * (q + 19) + r + 1;
    if r == 99 {
      assert y + 1 - 1901 == 100 * (q + 1);
    } else {
      assert y + 1 - 1901 == 100 * q + (r + 1);
    }
  }

  lemma LeapStep400(y: int)
    ensures (y + 1 - 1601) / 400 - (y - 1601) / 400 == if y % 400 == 0 then 1 else 0
  {
    var q, r := (y - 1601) / 400, (y - 1601) % 400;
    assert y == 400 * (q + 4) + r + 1;
    if r == 399 {
      assert y + 1 - 1601 == 400 * (q + 1);
    } else {
      assert y + 1 - 1601 == 400 * q + (r + 1);
    }
  }

  lemma QuadDivides(y: int)
    requires y % 400 == 0
    ensures y % 100 == 0
  {
    var k := y / 400;
    assert y == 100 * (4 * k);
  }

  lemma CenturyDivides(y: int)
    requires y % 100 == 0
    ensures y % 4 == 0
  {
    var k := y / 100;
    assert y == 4 * (25 * k);
  }

  lemma CountLeap(d4: int, d100: int, d400: int, l4: bool, l100: bool, l400: bool)
    requires d4 == (if l4 then 1 else 0) && d100 == (if l100 then 1 else 0) && d400 == (if l400 then 1 else 0)
    requires (l400 ==> l100) && (l100 ==> l4)
    ensures d4 - d100 + d400 == if l4 && (!l100 || l400) then 1 else 0
  {
  }

  /** Each year adds one leap day exactly when it is a leap year. */
  lemma LeapDaysStep(y: int)
    ensures LeapDays(y + 1) - LeapDays(y) == if IsLeap(y) then 1 else 0
  {
    LeapStep4(y);
    LeapStep100(y);
    LeapStep400(y);
    if y % 400 == 0 {
      QuadDivides(y);
    }
    if y % 100 == 0 {
      CenturyDivides(y);
    }
    CountLeap((y + 1 - 1969) / 4 - (y - 1969) / 4, (y + 1 - 1901) / 100 - (y - 1901) / 100,
      (y + 1 - 1601) / 400 - (y - 1601) / 400, y % 4 == 0, y % 100 == 0, y % 400 == 0);
  }

  /** A leap year has 366 days and any other year 365. */
  lemma YearLength(y: int)
    ensures DayFromYear(y + 1) - DayFromYear(y) == if IsLeap(y) then 366 else 365
  {
    LeapDaysStep(y);
  }

  /** Consecutive calendar days have consecutive day numbers. */
  lemma {:induction false} DayNumberNext(d: Date)
    requires ValidDate(d)
    ensures DayNumber(NextDay(d)) == DayNumber(d) + 1
  {
    if d.day == DaysInMonth(d.year, d.month) && d.month == 12 {
      YearLength(d.year);
    }
  }

  /** The calendar day before `d` has the day number before. */
  lemma DayNumberPrev(d: Date)
    requires ValidDate(d)
    ensures DayNumber(PrevDay(d)) == DayNumber(d) - 1
  {
    DayNumberNext(PrevDay(d));
    NextOfPrev(d);
  }

  lemma {:induction false} DayNumberForward(d: Date, n: nat)
    requires ValidDate(d)
    ensures DayNumber(AddDays(d, n)) == DayNumber(d) + n
    decreases n
  {
    if n > 0 {
      var e := NextDay(d);
      DayNumberNext(d);
      DayNumberForward(e, n - 1);
    }
  }

  lemma {:induction false} DayNumberBackward(d: Date, n: nat)
    requires ValidDate(d)
    ensures DayNumber(AddDays(d, 0 - n)) == DayNumber(d) - n
    decreases n
  {
    if n > 0 {
      var e := PrevDay(d);
      DayNumberPrev(d);
      DayNumberBackward(e, n - 1);
      assert AddDays(d, 0 - n) == AddDays(e, 0 - (n - 1));
    }
  }

  /** Moving by `n` days moves the day number by `n`. */
  lemma DayNumberAddDays(d: Date, n: int)
    requires ValidDate(d)
    ensures DayNumber(AddDays(d, n)) == DayNumber(d) + n
  {
    if n >= 0 {
      DayNumberForward(d, n);
    } else {
      DayNumberBackward(d, 0 - n);
    }
  }

  lemma AddDaysNext(d: Date, n: int)
    requires ValidDate(d)
    ensures AddDays(NextDay(d), n - 1) == AddDays(d, n)
  {
    if n <= 0 {
      PrevOfNext(d);
    }
  }

  lemma AddDaysPrev(d: Date, n: int)
    requires ValidDate(d)
    ensures AddDays(PrevDay(d), n + 1) == AddDays(d, n)
  {
    if n >= 0 {
      NextOfPrev(d);
    }
  }

  /** Adding `a` then `b` days is adding `a + b` days. */
  lemma {:induction false} AddDaysAdd(d: Date, a: int, b: int)
    requires ValidDate(d)
    ensures AddDays(AddDays(d, a), b) == AddDays(d, a + b)
    decreases if a >= 0 then a else -a
  {
    if a > 0 {
      AddDaysAdd(NextDay(d), a - 1, b);
      AddDaysNext(d, a + b);
    } else if a < 0 {
      AddDaysAdd(PrevDay(d), a + 1, b);
      AddDaysPrev(d, a + b);
    } else {
      assert AddDays(d, a) == d;
    }
  }

  /** `Y/m/d` with the year zero-padded to four digits and a two-digit month and day. */
  function FormatYmd(d: Date): string
    requires ValidDate(d) && d.year >= 0
  {
    ZeroPad(d.year, 4) + "/" + ZeroPad(d.month, 2) + "/" + ZeroPad(d.day, 2)
  }

  lemma ZeroPadIsNumeral(n: nat, width: nat)
    ensures IsNumeral(ZeroPad(n, width))
  {
  }

  /** The printed date reads back, part by part, as its year, month and day. */
  lemma FormatYmdReads(d: Date)
    requires ValidDate(d) && d.year >= 0
    ensures ReadNumbers(FormatYmd(d), '/') == Some([d.year, d.month, d.day])
    ensures Split(FormatYmd(d), '/') == [ZeroPad(d.year, 4), ZeroPad(d.month, 2), ZeroPad(d.day, 2)]
  {
    var y, m, dd := ZeroPad(d.year, 4), ZeroPad(d.month, 2), ZeroPad(d.day, 2);
    ZeroPadIsNumeral(d.year, 4);
    ZeroPadIsNumeral(d.month, 2);
    ZeroPadIsNumeral(d.day, 2);
    assert FormatYmd(d) == y + ['/'] + m + ['/'] + dd;
    ReadThreeNumbers(y, m, dd, '/');
    ParseZeroPad(d.year, 4);
    ParseZeroPad(d.month, 2);
    ParseZeroPad(d.day, 2);
    NumeralHasNo(y, '/');
    NumeralHasNo(m, '/');
    NumeralHasNo(dd, '/');
    SplitThree(y, m, dd, '/');
  }

  /** Python's naive `datetime`: a date and the microsecond within that day. */
  datatype DateTime = DateTime(date: Date, micros: int)

  const MICROS_PER_DAY: int := 86_400_000_000

  predicate ValidDateTime(t: DateTime) {
    ValidDate(t.date) && 1 <= t.date.year <= 9999 && 0 <= t.micros < MICROS_PER_DAY
  }

  /** `datetime.max`: 9999-12-31 23:59:59.999999. */
  const MAX: DateTime := DateTime(Date(9999, 12, 31), MICROS_PER_DAY - 1)

  /** The values a Python `datetime` can hold. */
  type Stamp = t: DateTime | ValidDateTime(t) witness MAX

  /** Python's `<` on naive datetimes. */
  predicate Less(a: DateTime, b: DateTime) {
    DateBefore(a.date, b.date) || (a.date == b.date && a.micros < b.micros)
  }

  lemma LessIrreflexive(a: DateTime)
    ensures !Less(a, a)
  {
  }

  lemma LessTransitive(a: DateTime, b: DateTime, c: DateTime)
    requires Less(a, b) && Less(b, c)
    ensures Less(a, c)
  {
  }

  /** Any two datetimes are equal or ordered one way, and never both ways. */
  lemma LessTrichotomy(a: DateTime, b: DateTime)
    ensures a == b || Less(a, b) || Less(b, a)
    ensures !(Less(a, b) && Less(b, a))
  {
  }

  /** `datetime.max` is the greatest valid datetime. */
  lemma MaxIsGreatest(t: DateTime)
    requires ValidDateTime(t)
    ensures t == MAX || Less(t, MAX)
  {
  }
}
