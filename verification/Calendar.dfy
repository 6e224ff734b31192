/**
  Days since 1970-01-01 and proleptic Gregorian dates, by the arithmetic the server uses, against the calendar
  itself: leap years, month lengths and the day that follows a day.
 */
module Calendar {

  datatype Date = Date(year: int, month: int, day: int)

  // ---- the calendar

  predicate Leap(year: int) {
    year % 4 == 0 && (year % 100 != 0 || year % 400 == 0)
  }

  function MonthLength(year: int, month: int): int {
    if month == 2 then (if Leap(year) then 29 else 28)
    else if month == 4 || month == 6 || month == 9 || month == 11 then 30
    else 31
  }

  predicate Valid(d: Date) {
    1 <= d.month <= 12 && 1 <= d.day <= MonthLength(d.year, d.month)
  }

  function DayAfter(d: Date): Date {
    if d.day < MonthLength(d.year, d.month) then Date(d.year, d.month, d.day + 1)
    else if d.month < 12 then Date(d.year, d.month + 1, 1)
    else Date(d.year + 1, 1, 1)
  }

  predicate Before(a: Date, b: Date) {
    a.year < b.year || (a.year == b.year && (a.month < b.month || (a.month == b.month && a.day < b.day)))
  }

  // ---- the server's arithmetic

  function YearOfEra(doe: int): int {
    (doe - doe / 1460 + doe / 36_524 - doe / 146_096) / 365
  }

  /** The days of an era, from a first of March, before its year `yoe`. */
  function YearStart(yoe: int): int {
    365 * yoe + yoe / 4 - yoe / 100
  }

  /** The month a day of such a year is in, counted from March. */
  function MonthOf(doy: int): int {
    (5 * doy + 2) / 153
  }

  /** The days of such a year before its month `mp`. */
  function MonthStart(mp: int): int {
    (153 * mp + 2) / 5
  }

  function Named(mp: int): int {
    if mp < 10 then mp + 3 else mp - 9
  }

  /** `civil`. */
  function Civil(days: int): Date {
    var z := days + 719_468;
    var era, doe := z / 146_097, z % 146_097;
    var yoe := YearOfEra(doe);
    var doy := doe - YearStart(yoe);
    var mp := MonthOf(doy);
    Date(yoe + era * 400 + (if Named(mp) <= 2 then 1 else 0), Named(mp), doy - MonthStart(mp) + 1)
  }

  /** `days_from_civil`. */
  function DaysFromCivil(year: int, month: int, day: int): int {
    var y := if month <= 2 then year - 1 else year;
    var era, yoe := y / 400, y % 400;
    var doy := MonthStart((month + 9) % 12) + day - 1;
    era * 146_097 + YearStart(yoe) + doy - 719_468
  }

  // ---- an era's years

  /** The year of the era that begins in March of `yoe` has a leap day at its end. */
  predicate LeapAtEnd(yoe: int) {
    Leap(yoe + 1)
  }

  lemma YearStartOf(c: int, q: int, k: int)
    requires 0 <= c <= 3 && 0 <= q <= 24 && 0 <= k <= 3
    ensures YearStart(100 * c + 4 * q + k) == 36_524 * c + 1461 * q + 365 * k
    ensures LeapAtEnd(100 * c + 4 * q + k) <==> k == 3 && (q < 24 || c == 3)
  {
    var y := 100 * c + 4 * q + k;
    assert y / 4 == 25 * c + q;
    assert y / 100 == c;
    assert (y + 1) / 4 == 25 * c + q + (if k == 3 then 1 else 0);
  }

  /** The one division by 365 finds the year, whatever the day in it. */
  lemma YearOfEraOf(c: int, q: int, k: int, r: int)
    requires 0 <= c <= 3 && 0 <= q <= 24 && 0 <= k <= 3
    requires 0 <= r <= 364 || (r == 365 && k == 3 && (q < 24 || c == 3))
    ensures YearOfEra(36_524 * c + 1461 * q + 365 * k + r) == 100 * c + 4 * q + k
  {
    var doe := 36_524 * c + 1461 * q + 365 * k + r;
    var e := if 24 * c + q + 365 * k + r >= 1460 then 1 else 0;
    assert doe == 1460 * (25 * c + q + e) + (24 * c + q + 365 * k + r - 1460 * e);
    assert doe / 1460 == 25 * c + q + e;
    var last := if doe == 146_096 then 1 else 0;
    assert doe / 146_096 == last;
    assert doe / 36_524 == c + last;
    assert 0 <= r - e <= 364;
    assert doe - doe / 1460 + doe / 36_524 - doe / 146_096 == 365 * (100 * c + 4 * q + k) + (r - e);
  }

  function Lesser(a: int, b: int): int { if a < b then a else b }

  /** Every day of an era lies in exactly one of its years. */
  lemma YearOfEraSpec(doe: int)
    requires 0 <= doe < 146_097
    ensures 0 <= YearOfEra(doe) < 400
    ensures YearStart(YearOfEra(doe)) <= doe
    ensures doe - YearStart(YearOfEra(doe)) <= (if LeapAtEnd(YearOfEra(doe)) then 365 else 364)
  {
    var c := Lesser(doe / 36_524, 3);
    var a := doe - 36_524 * c;
    var q := Lesser(a / 1461, 24);
    var b := a - 1461 * q;
    var k := Lesser(b / 365, 3);
    var r := b - 365 * k;
    assert 0 <= a <= 36_524 && (a == 36_524 ==> c == 3);
    assert 0 <= b <= 1460;
    assert 0 <= r <= 365;
    YearOfEraOf(c, q, k, r);
    YearStartOf(c, q, k);
  }

  /** And the division finds it from any day of the year. */
  lemma YearOfEraInverse(yoe: int, doy: int)
    requires 0 <= yoe < 400 && 0 <= doy <= (if LeapAtEnd(yoe) then 365 else 364)
    ensures 0 <= YearStart(yoe) + doy < 146_097
    ensures YearOfEra(YearStart(yoe) + doy) == yoe
  {
    var c, q, k := yoe / 100, yoe % 100 / 4, yoe % 4;
    assert yoe == 100 * c + 4 * q + k;
    YearStartOf(c, q, k);
    YearOfEraOf(c, q, k, doy);
  }

  // ---- months

  function MonthEnd(mp: int): int {
    if mp == 11 then 366 else MonthStart(mp + 1)
  }

  /** Months counted from March: a day of the year is in month `mp` exactly between two starts. */
  lemma MonthOfDay(doy: int)
    requires 0 <= doy <= 365
    ensures 0 <= MonthOf(doy) <= 11 && MonthStart(MonthOf(doy)) <= doy < MonthEnd(MonthOf(doy))
  {
  }

  lemma MonthOfDayInverse(mp: int, doy: int)
    requires 0 <= mp <= 11 && MonthStart(mp) <= doy < MonthEnd(mp)
    ensures MonthOf(doy) == mp
  {
  }

  lemma MonthLengths(mp: int, year: int)
    requires 0 <= mp <= 11
    ensures mp <= 10 ==> MonthEnd(mp) - MonthStart(mp) == MonthLength(year, Named(mp))
    ensures mp == 11 ==> MonthStart(mp) == 337
    ensures 0 <= MonthStart(mp) && MonthEnd(mp) <= 366 && (mp <= 10 ==> MonthEnd(mp) <= 337)
    ensures 1 <= Named(mp) <= 12 && (Named(mp) + 9) % 12 == mp && (Named(mp) <= 2 <==> mp >= 10)
  {
  }

  lemma MonthNumber(month: int)
    requires 1 <= month <= 12
    ensures 0 <= (month + 9) % 12 <= 11 && Named((month + 9) % 12) == month
  {
  }

  // ---- the two directions

  /** The year that begins in March in which a date falls. */
  function MarchYear(d: Date): int {
    if d.month <= 2 then d.year - 1 else d.year
  }

  lemma LeapAtEndOfEra(y: int)
    ensures LeapAtEnd(y % 400) <==> Leap(y + 1)
  {
    var e, r := y / 400, y % 400;
    assert y + 1 == 400 * e + (r + 1);
    assert (y + 1) % 4 == (r + 1) % 4 by { assert y + 1 == 4 * (100 * e) + (r + 1); }
    assert (y + 1) % 100 == (r + 1) % 100 by { assert y + 1 == 100 * (4 * e) + (r + 1); }
    assert (y + 1) % 400 == (r + 1) % 400;
  }

  /** A day of a March-based year, as a date. */
  lemma DateOfParts(y: int, doy: int)
    requires 0 <= doy <= (if Leap(y + 1) then 365 else 364)
    ensures var mp := MonthOf(doy);
            var d := Date(y + (if Named(mp) <= 2 then 1 else 0), Named(mp), doy - MonthStart(mp) + 1);
            && Valid(d) && MarchYear(d) == y
            && (d.month + 9) % 12 == mp && MonthStart(mp) + d.day - 1 == doy
  {
    hide MonthOf, MonthStart, Leap, Named;
    MonthOfDay(doy);
    MonthLengths(MonthOf(doy), y + (if Named(MonthOf(doy)) <= 2 then 1 else 0));
    NamedLast();
  }

  lemma NamedLast()
    ensures Named(11) == 2 && Named(10) == 1 && Named(9) == 12
  {
  }

  lemma EraOf(era: int, yoe: int)
    requires 0 <= yoe < 400
    ensures (yoe + era * 400) / 400 == era && (yoe + era * 400) % 400 == yoe
  {
  }

  /** Every day's date is a date, and its day number is the day. */
  lemma CivilValid(days: int)
    ensures Valid(Civil(days))
    ensures DaysFromCivil(Civil(days).year, Civil(days).month, Civil(days).day) == days
  {
    hide YearOfEra, YearStart, MonthOf, MonthStart, Leap, Named, Valid;
    var z := days + 719_468;
    var era, doe := z / 146_097, z % 146_097;
    YearOfEraSpec(doe);
    var yoe := YearOfEra(doe);
    EraOf(era, yoe);
    LeapAtEndOfEra(yoe + era * 400);
    DateOfParts(yoe + era * 400, doe - YearStart(yoe));
  }

  /** The parts of a date. */
  lemma PartsOfDate(d: Date)
    requires Valid(d)
    ensures var y, mp := MarchYear(d), (d.month + 9) % 12;
            var doy := MonthStart(mp) + d.day - 1;
            && 0 <= doy <= (if Leap(y + 1) then 365 else 364)
            && MonthOf(doy) == mp && Named(mp) == d.month
  {
    hide MonthOf, MonthStart, Leap, Named;
    var mp := (d.month + 9) % 12;
    MonthNumber(d.month);
    MonthLengths(mp, d.year);
    NamedLast();
    MonthOfDayInverse(mp, MonthStart(mp) + d.day - 1);
  }

  lemma Divide(z: int, era: int, doe: int)
    requires z == era * 146_097 + doe && 0 <= doe < 146_097
    ensures z / 146_097 == era && z % 146_097 == doe
  {
  }

  /** And every date's day number leads back to it. */
  lemma CivilInverse(d: Date)
    requires Valid(d)
    ensures Civil(DaysFromCivil(d.year, d.month, d.day)) == d
  {
    hide YearOfEra, YearStart, MonthOf, MonthStart, Leap, Named, Valid;
    var y := MarchYear(d);
    var era, yoe := y / 400, y % 400;
    var doy := MonthStart((d.month + 9) % 12) + d.day - 1;
    PartsOfDate(d);
    LeapAtEndOfEra(y);
    YearOfEraInverse(yoe, doy);
    var days := DaysFromCivil(d.year, d.month, d.day);
    Divide(days + 719_468, era, YearStart(yoe) + doy);
  }

  /** The day numbers of a day and the day after it differ by one. */
  lemma DayAfterCounts(d: Date)
    requires Valid(d)
    ensures Valid(DayAfter(d))
    ensures var n := DayAfter(d);
            DaysFromCivil(n.year, n.month, n.day) == DaysFromCivil(d.year, d.month, d.day) + 1
  {
    hide YearStart, MonthStart, Named, Leap;
    var n, y, mp := DayAfter(d), MarchYear(d), (d.month + 9) % 12;
    MonthNumber(d.month);
    MonthLengths(mp, d.year);
    NamedLast();
    MarchStarts();
    if d.day == MonthLength(d.year, d.month) {
      if mp <= 10 {
        assert (n.month + 9) % 12 == mp + 1 && MarchYear(n) == y;
      } else {
        assert d.month == 2 && n == Date(d.year, 3, 1) && MarchYear(n) == y + 1;
        YearAfter(y);
      }
    }
  }

  lemma MarchStarts()
    ensures MonthStart(0) == 0 && MonthStart(11) == 337
  {
  }

  /** From one first of March to the next. */
  lemma YearAfter(y: int)
    ensures (y + 1) / 400 * 146_097 + YearStart((y + 1) % 400)
         == y / 400 * 146_097 + YearStart(y % 400) + (if Leap(y + 1) then 366 else 365)
  {
    hide Leap, YearStart;
    var e, r := y / 400, y % 400;
    LeapAtEndOfEra(y);
    YearAfterInEra(r);
    if r < 399 {
      EraOf(e, r + 1);
    } else {
      EraOf(e + 1, 0);
    }
  }

  lemma YearAfterInEra(r: int)
    requires 0 <= r < 400
    ensures YearStart(0) == 0
    ensures r < 399 ==> YearStart(r + 1) == YearStart(r) + (if LeapAtEnd(r) then 366 else 365)
    ensures r == 399 ==> LeapAtEnd(r) && YearStart(r) + 366 == 146_097
  {
    hide Leap;
    var c, q, k := r / 100, r % 100 / 4, r % 4;
    assert r == 100 * c + 4 * q + k;
    YearStartOf(c, q, k);
    if k < 3 {
      YearStartOf(c, q, k + 1);
    } else if q < 24 {
      YearStartOf(c, q + 1, 0);
    } else if c < 3 {
      YearStartOf(c + 1, 0, 0);
    }
  }

  /** The date of the next day is the day after the date of the day, over all integer days. */
  lemma CivilSteps(days: int)
    ensures Civil(days + 1) == DayAfter(Civil(days))
  {
    hide Civil, DaysFromCivil, DayAfter, Valid;
    CivilValid(days);
    DayAfterCounts(Civil(days));
    CivilInverse(DayAfter(Civil(days)));
  }

  lemma CivilStarts()
    ensures Civil(0) == Date(1970, 1, 1)
  {
    hide Civil;
    CivilInverse(Date(1970, 1, 1));
    assert 1969 / 400 == 4 && 1969 % 400 == 369;
    assert DaysFromCivil(1970, 1, 1) == 0;
  }

  lemma BeforeTransitive(a: Date, b: Date, c: Date)
    requires Before(a, b) && Before(b, c)
    ensures Before(a, c)
  {
  }

  /** Later days have later dates. */
  lemma {:induction false} CivilOrdered(a: int, b: int)
    requires a < b
    ensures Before(Civil(a), Civil(b))
    decreases b - a
  {
    hide Civil;
    CivilSteps(b - 1);
    CivilValid(b - 1);
    if a < b - 1 {
      CivilOrdered(a, b - 1);
      BeforeTransitive(Civil(a), Civil(b - 1), Civil(b));
    }
  }

  // ---- the month of a time

  const DAY_MS := 86_400_000

  /** `month_index`, written apart with a truncating division; `now` is in milliseconds since 1970. */
  function MonthIndex(now: nat): int {
    var days := now / DAY_MS;
    var z := days + 719_468;
    var era := Truncated(if z >= 0 then z else z - 146_096, 146_097);
    MonthInEra(era, z - era * 146_097)
  }

  function MonthInEra(era: int, doe: int): int {
    var yoe := (doe - doe / 1460 + doe / 36_524 - doe / 146_096) / 365;
    var doy := doe - (365 * yoe + yoe / 4 - yoe / 100);
    var mp := (5 * doy + 2) / 153;
    var month := if mp < 10 then mp + 3 else mp - 9;
    var year := era * 400 + yoe + (if month <= 2 then 1 else 0);
    year * 12 + (month - 1)
  }

  /** Division toward zero. */
  function Truncated(a: int, b: int): int
    requires b > 0
  {
    if a >= 0 then a / b else -(-a / b)
  }

  /** The month counter agrees with the calendar of the validators, and never goes back. */
  lemma MonthIndexIsCivil(now: nat)
    ensures var d := Civil(now / DAY_MS); MonthIndex(now) == d.year * 12 + d.month - 1
  {
    hide MonthInEra, YearOfEra, YearStart, MonthOf, MonthStart, Named;
    var z := now / DAY_MS + 719_468;
    MonthInEraIsCivil(z / 146_097, z % 146_097);
  }

  lemma MonthInEraIsCivil(era: int, doe: int)
    ensures var yoe := YearOfEra(doe);
            var month := Named(MonthOf(doe - YearStart(yoe)));
            MonthInEra(era, doe) == (yoe + era * 400 + (if month <= 2 then 1 else 0)) * 12 + month - 1
  {
    var yoe := YearOfEra(doe);
    var doy := doe - YearStart(yoe);
    assert MonthOf(doy) == (5 * doy + 2) / 153;
  }

  lemma MonthIndexMonotone(now: nat, later: nat)
    requires now <= later
    ensures MonthIndex(now) <= MonthIndex(later)
  {
    hide MonthIndex, Civil;
    MonthIndexIsCivil(now);
    MonthIndexIsCivil(later);
    var a, b := now / DAY_MS, later / DAY_MS;
    if a < b {
      CivilOrdered(a, b);
      CivilValid(a);
      CivilValid(b);
    }
  }
}
