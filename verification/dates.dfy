/** Calendar dates as (year, month, day) triples in the proleptic Gregorian
    calendar, with the date-fns operations the tracker relies on: `addDays`,
    `addMonths` and `addYears` (which clamp the day to the target month's
    length), `startOfWeek`/`endOfWeek` with the default Sunday start,
    `startOfMonth`/`endOfMonth`, `subMonths` on month labels, and
    `format(date, 'yyyy-MM-dd')`. */
module Dates {
  import Text

  datatype Date = Date(year: int, month: int, day: int)

  /** A date that exists in the calendar: what a stored date string denotes. */
  type CalendarDate = d: Date | Valid(d) witness Date(1970, 1, 1)

  /** A calendar month of a year: what `format(date, 'MMM yyyy')` names. */
  datatype YearMonth = YearMonth(year: int, month: int)

  predicate IsLeapYear(y: int)
  {
    y % 4 == 0 && (y % 100 != 0 || y % 400 == 0)
  }

  function DaysInMonth(y: int, m: int): (n: int)
    requires 1 <= m <= 12
    ensures 28 <= n <= 31
    ensures n == 29 <==> m == 2 && IsLeapYear(y)
  {
    if m == 2 then (if IsLeapYear(y) then 29 else 28)
    else if m == 4 || m == 6 || m == 9 || m == 11 then 30
    else 31
  }

  /** The date names a day that exists. */
  predicate Valid(d: Date)
  {
    1 <= d.month <= 12 && 1 <= d.day <= DaysInMonth(d.year, d.month)
  }

  /** Chronological order (`new Date(a) <= new Date(b)` on whole days). */
  predicate LessEq(a: Date, b: Date)
  {
    a.year < b.year ||
    (a.year == b.year && (a.month < b.month || (a.month == b.month && a.day <= b.day)))
  }

  predicate Less(a: Date, b: Date)
  {
    LessEq(a, b) && a != b
  }

  /** The order is total, antisymmetric and transitive. */
  lemma LessEqTotalOrder(a: Date, b: Date, c: Date)
    ensures LessEq(a, b) || LessEq(b, a)
    ensures LessEq(a, b) && LessEq(b, a) ==> a == b
    ensures LessEq(a, b) && LessEq(b, c) ==> LessEq(a, c)
  {
  }

  function MonthOf(d: Date): YearMonth
  {
    YearMonth(d.year, d.month)
  }

  // ---- whole-day arithmetic (addDays / subDays by at most four weeks) ----

  /** `addDays(d, k)` for 0 <= k <= 28: at most one month boundary is crossed. */
  function AddDays(d: Date, k: int): (r: Date)
    requires Valid(d) && 0 <= k <= 28
    ensures Valid(r) && LessEq(d, r)
    ensures k > 0 ==> Less(d, r)
  {
    var n := DaysInMonth(d.year, d.month);
    if d.day + k <= n then Date(d.year, d.month, d.day + k)
    else if d.month == 12 then Date(d.year + 1, 1, d.day + k - n)
    else Date(d.year, d.month + 1, d.day + k - n)
  }

  /** `subDays(d, k)` for 0 <= k <= 28. */
  function SubDays(d: Date, k: int): (r: Date)
    requires Valid(d) && 0 <= k <= 28
    ensures Valid(r) && LessEq(r, d)
    ensures k > 0 ==> Less(r, d)
  {
    if d.day > k then Date(d.year, d.month, d.day - k)
    else if d.month == 1 then Date(d.year - 1, 12, DaysInMonth(d.year - 1, 12) + d.day - k)
    else Date(d.year, d.month - 1, DaysInMonth(d.year, d.month - 1) + d.day - k)
  }

  /** Going forward `k` days and back `k` days returns to the same day. */
  lemma AddSubDays(d: Date, k: int)
    requires Valid(d) && 0 <= k <= 28
    ensures SubDays(AddDays(d, k), k) == d
    ensures AddDays(SubDays(d, k), k) == d
  {
  }

  /** Going forward more days never lands earlier. */
  lemma AddDaysMonotone(d: Date, j: int, k: int)
    requires Valid(d) && 0 <= j <= k <= 28
    ensures LessEq(AddDays(d, j), AddDays(d, k))
  {
  }

  // ---- months and years ----

  /** Months elapsed since January of year 0. */
  function MonthIndex(ym: YearMonth): int
  {
    ym.year * 12 + ym.month - 1
  }

  function MonthAt(index: int): (ym: YearMonth)
    ensures 1 <= ym.month <= 12 && MonthIndex(ym) == index
  {
    YearMonth(index / 12, index % 12 + 1)
  }

  /** `subMonths(now, i)` as far as the month label sees it. */
  function SubMonths(ym: YearMonth, i: int): (r: YearMonth)
    ensures 1 <= r.month <= 12
    ensures MonthIndex(r) == MonthIndex(ym) - i
  {
    MonthAt(MonthIndex(ym) - i)
  }

  /** Month labels name months uniquely. */
  lemma MonthIndexInjective(a: YearMonth, b: YearMonth)
    requires 1 <= a.month <= 12 && 1 <= b.month <= 12
    requires MonthIndex(a) == MonthIndex(b)
    ensures a == b
  {
  }

  function Min(a: int, b: int): int
  {
    if a <= b then a else b
  }

  /** `addMonths(d, 1)`: next calendar month, day clamped to its length. */
  function AddOneMonth(d: Date): (r: Date)
    requires Valid(d)
    ensures Valid(r)
    ensures MonthIndex(MonthOf(r)) == MonthIndex(MonthOf(d)) + 1
    ensures r.day == Min(d.day, DaysInMonth(r.year, r.month))
  {
    var ym := if d.month == 12 then YearMonth(d.year + 1, 1) else YearMonth(d.year, d.month + 1);
    Date(ym.year, ym.month, Min(d.day, DaysInMonth(ym.year, ym.month)))
  }

  /** `addYears(d, 1)`: same month next year, day clamped (29 February only). */
  function AddOneYear(d: Date): (r: Date)
    requires Valid(d)
    ensures Valid(r)
    ensures r.year == d.year + 1 && r.month == d.month
    ensures r.day == d.day || (d.month == 2 && d.day == 29 && r.day == 28)
  {
    Date(d.year + 1, d.month, Min(d.day, DaysInMonth(d.year + 1, d.month)))
  }

  // ---- weeks (date-fns default: weeks start on Sunday) ----

  /** The year term of Zeller's congruence. */
  function YearPart(y: int): int
  {
    var k := y % 100;
    var j := y / 100;
    k + k / 4 + j / 4 + 5 * j
  }

  /** The month term of Zeller's congruence; January and February count as
      months 13 and 14 of the previous year. */
  function MonthTerm(m: int): int
  {
    var mm := if m <= 2 then m + 12 else m;
    13 * (mm + 1) / 5
  }

  /** Zeller's sum for day `q` of month `m` of year `y`, not yet reduced
      modulo 7. It is defined for any `q`, so day `q + n` of a month of `n`
      days names day `q` of the next month. */
  function ZellerSum(y: int, m: int, q: int): int
  {
    q + MonthTerm(m) + YearPart(if m <= 2 then y - 1 else y)
  }

  /** Day of the week, 0 = Sunday … 6 = Saturday (Zeller's congruence). */
  function Weekday(d: Date): (w: int)
    ensures 0 <= w < 7
  {
    (ZellerSum(d.year, d.month, d.day) + 6) % 7
  }

  /** The year term differs from the Gregorian day count's
      `y + y/4 - y/100 + y/400` by a multiple of 7. */
  lemma YearPartIsGregorian(y: int)
    ensures YearPart(y) == y + y / 4 - y / 100 + y / 400 - 119 * (y / 100)
  {
    var k, j := y % 100, y / 100;
    assert y == 100 * j + k && 0 <= k < 100;
    assert y / 4 == 25 * j + k / 4;
    var a, b := j / 4, j % 4;
    assert j == 4 * a + b && 0 <= b < 4;
    assert y == 400 * a + (100 * b + k) && 0 <= 100 * b + k < 400;
    assert y / 400 == a;
  }

  /** `y / c` steps up by one from `y - 1` exactly when `c` divides `y`. */
  lemma DivStep4(y: int)
    ensures y / 4 - (y - 1) / 4 == if y % 4 == 0 then 1 else 0
  {
    var q, r := (y - 1) / 4, (y - 1) % 4;
    assert y == 4 * q + r + 1;
    if r == 3 { assert y == 4 * (q + 1) + 0; } else { assert y == 4 * q + (r + 1); }
  }

  lemma DivStep100(y: int)
    ensures y / 100 - (y - 1) / 100 == if y % 100 == 0 then 1 else 0
  {
    var q, r := (y - 1) / 100, (y - 1) % 100;
    assert y == 100 * q + r + 1;
    if r == 99 { assert y == 100 * (q + 1) + 0; } else { assert y == 100 * q + (r + 1); }
  }

  lemma DivStep400(y: int)
    ensures y / 400 - (y - 1) / 400 == if y % 400 == 0 then 1 else 0
  {
    var q, r := (y - 1) / 400, (y - 1) % 400;
    assert y == 400 * q + r + 1;
    if r == 399 { assert y == 400 * (q + 1) + 0; } else { assert y == 400 * q + (r + 1); }
  }

  /** From one year to the next the Gregorian count grows by one, and by two
      into a leap year. */
  lemma GregorianStep(y: int)
    ensures (y + y / 4 - y / 100 + y / 400) - ((y - 1) + (y - 1) / 4 - (y - 1) / 100 + (y - 1) / 400)
            == if IsLeapYear(y) then 2 else 1
  {
    DivStep4(y);
    DivStep100(y);
    DivStep400(y);
    if y % 100 == 0 {
      var j := y / 100;
      assert y == 4 * (25 * j);
    }
    if y % 400 == 0 {
      var j := y / 400;
      assert y == 100 * (4 * j);
    }
  }

  lemma MultipleOfSeven(t: int)
    ensures (7 * t) % 7 == 0
  {
  }

  lemma NegatedMultiple(x: int)
    requires x % 7 == 0
    ensures (-x) % 7 == 0
  {
    MultipleOfSeven(-(x / 7));
    assert -x == 7 * -(x / 7);
  }

  /** From one month to the next the month term grows by the length of the
      month less 28, except from February into March. */
  lemma MonthTermStep(m: int)
    requires 1 <= m <= 12 && m != 2
    ensures MonthTerm(if m == 12 then 1 else m + 1) - MonthTerm(m) == DaysInMonth(2001, m) - 28
  {
    if m == 1 { assert MonthTerm(2) == 39 && MonthTerm(1) == 36; }
    else if m == 3 { assert MonthTerm(4) == 13 && MonthTerm(3) == 10; }
    else if m == 4 { assert MonthTerm(5) == 15 && MonthTerm(4) == 13; }
    else if m == 5 { assert MonthTerm(6) == 18 && MonthTerm(5) == 15; }
    else if m == 6 { assert MonthTerm(7) == 20 && MonthTerm(6) == 18; }
    else if m == 7 { assert MonthTerm(8) == 23 && MonthTerm(7) == 20; }
    else if m == 8 { assert MonthTerm(9) == 26 && MonthTerm(8) == 23; }
    else if m == 9 { assert MonthTerm(10) == 28 && MonthTerm(9) == 26; }
    else if m == 10 { assert MonthTerm(11) == 31 && MonthTerm(10) == 28; }
    else if m == 11 { assert MonthTerm(12) == 33 && MonthTerm(11) == 31; }
    else { assert MonthTerm(1) == 36 && MonthTerm(12) == 33; }
  }

  /** From February into March the year term switches to the new year,
      which makes up for February's length up to a multiple of 7. */
  lemma FebruaryStep(y: int, q: int)
    ensures (ZellerSum(y, 3, q) - ZellerSum(y, 2, q + DaysInMonth(y, 2))) % 7 == 0
  {
    assert MonthTerm(3) == 10 && MonthTerm(2) == 39;
    YearPartIsGregorian(y);
    YearPartIsGregorian(y - 1);
    GregorianStep(y);
    var dj := y / 100 - (y - 1) / 100;
    assert YearPart(y) - YearPart(y - 1) == (if IsLeapYear(y) then 2 else 1) - 119 * dj;
    assert ZellerSum(y, 3, q) - ZellerSum(y, 2, q + DaysInMonth(y, 2)) == 7 * (-8 - 17 * dj);
    MultipleOfSeven(-8 - 17 * dj);
  }

  /** Any other month: the month term grows by the month's length less 28
      and the year term is unchanged. */
  lemma OtherMonthStep(y: int, m: int, ny: int, nm: int, q: int)
    requires 1 <= m <= 12 && m != 2
    requires ny == (if m == 12 then y + 1 else y) && nm == (if m == 12 then 1 else m + 1)
    ensures ZellerSum(ny, nm, q) - ZellerSum(y, m, q + DaysInMonth(y, m)) == -28
  {
    MonthTermStep(m);
    assert (if nm <= 2 then ny - 1 else ny) == (if m <= 2 then y - 1 else y);
  }

  /** Day `q + n` of a month of `n` days falls on the weekday of day `q` of
      the next month `nm` of year `ny`. */
  lemma ZellerMonthStep(y: int, m: int, ny: int, nm: int, q: int)
    requires 1 <= m <= 12
    requires ny == (if m == 12 then y + 1 else y) && nm == (if m == 12 then 1 else m + 1)
    ensures (ZellerSum(ny, nm, q) - ZellerSum(y, m, q + DaysInMonth(y, m))) % 7 == 0
  {
    if m == 2 {
      FebruaryStep(y, q);
    } else {
      OtherMonthStep(y, m, ny, nm, q);
    }
  }

  /** Two Zeller sums that agree modulo 7 once one is moved by `k` name
      weekdays `k` apart. */
  lemma ShiftWeekday(a: int, z: int, k: int)
    requires (a - z - k) % 7 == 0
    ensures (a + 6) % 7 == ((z + 6) % 7 + k) % 7
  {
    var t := (a - z - k) / 7;
    assert a == z + k + 7 * t;
    var w := (z + 6) % 7;
    var n := (z + 6) / 7;
    assert z + 6 == 7 * n + w;
    assert a + 6 == (w + k) + 7 * (n + t);
  }

  /** Dates whose Zeller sums differ by `k` modulo 7 are `k` weekdays apart. */
  lemma WeekdayFromSums(d: Date, r: Date, k: int)
    requires (ZellerSum(r.year, r.month, r.day) - ZellerSum(d.year, d.month, d.day) - k) % 7 == 0
    ensures Weekday(r) == (Weekday(d) + k) % 7
  {
    ShiftWeekday(ZellerSum(r.year, r.month, r.day), ZellerSum(d.year, d.month, d.day), k);
  }

  /** Day `q - k` of a month, for `q <= k`, is day `q - k + n` of the
      previous month of `n` days: the sums agree modulo 7. */
  lemma PrevMonthSum(y: int, m: int, q: int, k: int)
    requires 1 <= m <= 12
    ensures var py, pm := if m == 1 then y - 1 else y, if m == 1 then 12 else m - 1;
      (ZellerSum(py, pm, DaysInMonth(py, pm) + q - k) - ZellerSum(y, m, q) + k) % 7 == 0
  {
    var py, pm := if m == 1 then y - 1 else y, if m == 1 then 12 else m - 1;
    var a, b := ZellerSum(py, pm, DaysInMonth(py, pm) + q - k), ZellerSum(y, m, q - k);
    ZellerMonthStep(py, pm, y, m, q - k);
    assert (b - a) % 7 == 0;
    NegatedMultiple(b - a);
    assert ZellerSum(y, m, q) - k == b;
  }

  /** Stepping `k` days back within the month lowers the sum by `k`; across
      the month boundary the sum agrees with that modulo 7. */
  lemma SubDaysSum(d: Date, k: int)
    requires Valid(d) && 0 <= k <= 28
    ensures var r := SubDays(d, k);
      (ZellerSum(r.year, r.month, r.day) - ZellerSum(d.year, d.month, d.day) + k) % 7 == 0
  {
    if d.day > k {
      assert SubDays(d, k) == Date(d.year, d.month, d.day - k);
      SameMonthSum(d.year, d.month, d.day, -k);
    } else {
      var py, pm := if d.month == 1 then d.year - 1 else d.year, if d.month == 1 then 12 else d.month - 1;
      assert SubDays(d, k) == Date(py, pm, DaysInMonth(py, pm) + d.day - k);
      PrevMonthSum(d.year, d.month, d.day, k);
    }
  }

  /** Within a month the sum moves with the day number. */
  lemma SameMonthSum(y: int, m: int, q: int, k: int)
    ensures (ZellerSum(y, m, q + k) - ZellerSum(y, m, q) - k) % 7 == 0
  {
    assert ZellerSum(y, m, q + k) - ZellerSum(y, m, q) - k == 0;
  }

  /** Day `q + k` of a month of `n` days, past its end, is day `q + k - n`
      of the next month: the sums agree modulo 7. */
  lemma NextMonthSum(y: int, m: int, q: int, k: int)
    requires 1 <= m <= 12
    ensures var ny, nm := if m == 12 then y + 1 else y, if m == 12 then 1 else m + 1;
      (ZellerSum(ny, nm, q + k - DaysInMonth(y, m)) - ZellerSum(y, m, q) - k) % 7 == 0
  {
    var ny, nm := if m == 12 then y + 1 else y, if m == 12 then 1 else m + 1;
    var n := DaysInMonth(y, m);
    ZellerMonthStep(y, m, ny, nm, q + k - n);
    assert ZellerSum(y, m, q + k - n + n) == ZellerSum(y, m, q) + k;
  }

  /** Stepping `k` days forward within the month raises the sum by `k`;
      across the month boundary the sum agrees with that modulo 7. */
  lemma AddDaysSum(d: Date, k: int)
    requires Valid(d) && 0 <= k <= 28
    ensures var r := AddDays(d, k);
      (ZellerSum(r.year, r.month, r.day) - ZellerSum(d.year, d.month, d.day) - k) % 7 == 0
  {
    var n := DaysInMonth(d.year, d.month);
    if d.day + k <= n {
      assert AddDays(d, k) == Date(d.year, d.month, d.day + k);
      SameMonthSum(d.year, d.month, d.day, k);
    } else {
      var ny, nm := if d.month == 12 then d.year + 1 else d.year, if d.month == 12 then 1 else d.month + 1;
      assert AddDays(d, k) == Date(ny, nm, d.day + k - n);
      NextMonthSum(d.year, d.month, d.day, k);
    }
  }

  /** Going back `k` days goes back `k` weekdays. */
  lemma WeekdaySubDays(d: Date, k: int)
    requires Valid(d) && 0 <= k <= 28
    ensures Weekday(SubDays(d, k)) == (Weekday(d) - k) % 7
  {
    SubDaysSum(d, k);
    WeekdayFromSums(d, SubDays(d, k), -k);
  }

  /** Going forward `k` days goes forward `k` weekdays. */
  lemma WeekdayAddDays(d: Date, k: int)
    requires Valid(d) && 0 <= k <= 28
    ensures Weekday(AddDays(d, k)) == (Weekday(d) + k) % 7
  {
    AddDaysSum(d, k);
    WeekdayFromSums(d, AddDays(d, k), k);
  }

  /** `startOfWeek(d)`: the Sunday on or before `d`. */
  function StartOfWeek(d: Date): (r: Date)
    requires Valid(d)
    ensures Valid(r) && LessEq(r, d)
  {
    SubDays(d, Weekday(d))
  }

  /** `endOfWeek(d)`: six days after the week's start. */
  function EndOfWeek(d: Date): (r: Date)
    requires Valid(d)
    ensures Valid(r)
  {
    AddDays(StartOfWeek(d), 6)
  }

  /** A day lies in its own week. */
  lemma InOwnWeek(d: Date)
    requires Valid(d)
    ensures LessEq(StartOfWeek(d), d) && LessEq(d, EndOfWeek(d))
  {
    var w := Weekday(d);
    var s := StartOfWeek(d);
    AddSubDays(d, w);
    AddDaysMonotone(s, w, 6);
  }

  lemma StartOfWeekIsSunday(d: Date)
    requires Valid(d)
    ensures Weekday(StartOfWeek(d)) == 0
  {
    WeekdaySubDays(d, Weekday(d));
  }

  /** Six days after a Sunday is a Saturday. */
  lemma SaturdayAfterSunday(s: Date)
    requires Valid(s) && Weekday(s) == 0
    ensures Weekday(AddDays(s, 6)) == 6
  {
    WeekdayAddDays(s, 6);
  }

  lemma EndOfWeekIsSaturday(d: Date)
    requires Valid(d)
    ensures Weekday(EndOfWeek(d)) == 6
  {
    StartOfWeekIsSunday(d);
    SaturdayAfterSunday(StartOfWeek(d));
  }

  /** The week starts on a Sunday and ends on a Saturday, and `d` is the
      day `Weekday(d)` days after the start, so the start is the nearest
      Sunday on or before `d`. */
  lemma WeekIsSundayToSaturday(d: Date)
    requires Valid(d)
    ensures Weekday(StartOfWeek(d)) == 0
    ensures Weekday(EndOfWeek(d)) == 6
    ensures AddDays(StartOfWeek(d), Weekday(d)) == d
  {
    StartOfWeekIsSunday(d);
    EndOfWeekIsSaturday(d);
    AddSubDays(d, Weekday(d));
  }

  function StartOfMonth(d: Date): Date
  {
    Date(d.year, d.month, 1)
  }

  function EndOfMonth(d: Date): Date
    requires 1 <= d.month <= 12
  {
    Date(d.year, d.month, DaysInMonth(d.year, d.month))
  }

  /** A valid date lies between the first and last day of a month exactly
      when it is in that month. */
  lemma InMonthIffSameMonth(d: Date, now: Date)
    requires Valid(d) && Valid(now)
    ensures LessEq(StartOfMonth(now), d) && LessEq(d, EndOfMonth(now)) <==> MonthOf(d) == MonthOf(now)
  {
  }

  // ---- text ----

  function PaddedInt(n: int, width: nat): string
  {
    if n < 0 then "-" + Text.PadZero(Text.NatToString(-n), width)
    else Text.PadZero(Text.NatToString(n), width)
  }

  /** `format(d, 'yyyy-MM-dd')`. */
  function Format(d: Date): string
    requires Valid(d)
  {
    PaddedInt(d.year, 4) + "-" + PaddedInt(d.month, 2) + "-" + PaddedInt(d.day, 2)
  }

  lemma PaddedLength(n: int, width: nat, k: nat)
    requires 0 <= n < Text.Pow10(k) && 1 <= k <= width
    ensures |PaddedInt(n, width)| == width
  {
    Text.NatToStringLength(n, k);
  }

  /** Three digit fields joined by dashes: the dashes sit at positions 4
      and 7 and each field can be cut back out. */
  lemma DashedFields(y: string, m: string, q: string)
    requires |y| == 4 && |m| == 2 && |q| == 2
    ensures var s := y + "-" + m + "-" + q;
      |s| == 10 && s[4] == '-' && s[7] == '-' && s[..4] == y && s[5..7] == m && s[8..] == q
  {
    var s := y + "-" + m + "-" + q;
    assert s[..4] == y && s[5..7] == m && s[8..] == q;
  }

  /** For four-digit years the text has the fixed shape `dddd-dd-dd`, and
      its three digit fields read back as the year, the month and the day. */
  lemma FormatShape(d: Date)
    requires Valid(d) && 0 <= d.year <= 9999
    ensures var s := Format(d);
      |s| == 10 && s[4] == '-' && s[7] == '-' &&
      Text.AllDigits(s[..4]) && Text.AllDigits(s[5..7]) && Text.AllDigits(s[8..]) &&
      Text.ParseDigits(s[..4]) == d.year && Text.ParseDigits(s[5..7]) == d.month &&
      Text.ParseDigits(s[8..]) == d.day
  {
    assert Text.Pow10(2) == 100 && Text.Pow10(4) == 10000;
    PaddedLength(d.year, 4, 4);
    PaddedLength(d.month, 2, 2);
    PaddedLength(d.day, 2, 2);
    Text.PadZeroRoundTrip(d.year, 4);
    Text.PadZeroRoundTrip(d.month, 2);
    Text.PadZeroRoundTrip(d.day, 2);
    DashedFields(PaddedInt(d.year, 4), PaddedInt(d.month, 2), PaddedInt(d.day, 2));
  }
}
