/** C++ integer arithmetic: division and remainder truncate toward zero. */
module CppInt {

  function Quot(a: int, b: int): int
    requires b > 0
  {
    if a >= 0 then a / b else -((-a) / b)
  }

  function Rem(a: int, b: int): int
    requires b > 0
  {
    if a >= 0 then a % b else -((-a) % b)
  }
}

/** The Gregorian calendar as the civil rules give it, with no day numbers in sight. */
module Calendar {

  datatype Civil = Civil(year: int, month: int, day: int)

  predicate LeapYear(year: int) {
    year % 4 == 0 && (year % 100 != 0 || year % 400 == 0)
  }

  function DaysInMonth(year: int, month: int): int {
    if month == 2 then (if LeapYear(year) then 29 else 28)
    else if month in {4, 6, 9, 11} then 30
    else 31
  }

  predicate ValidDate(d: Civil) {
    1 <= d.month <= 12 && 1 <= d.day <= DaysInMonth(d.year, d.month)
  }

  function NextDate(d: Civil): Civil {
    if d.day < DaysInMonth(d.year, d.month) then d.(day := d.day + 1)
    else if d.month < 12 then Civil(d.year, d.month + 1, 1)
    else Civil(d.year + 1, 1, 1)
  }

  predicate Before(d: Civil, e: Civil) {
    || d.year < e.year
    || (d.year == e.year && d.month < e.month)
    || (d.year == e.year && d.month == e.month && d.day < e.day)
  }
}

/** Julian day numbers (src/muduo/base/Date.cc). */
module Date {
  import opened CppInt
  import opened Calendar

  const FIRST_DAY := -32044

  function JulianDayNumber(d: Civil): int {
    var a := Quot(14 - d.month, 12);
    var y := d.year + 4800 - a;
    var m := d.month + 12 * a - 3;
    d.day + Quot(153 * m + 2, 5) + y * 365 + Quot(y, 4) - Quot(y, 100) + Quot(y, 400) - 32045
  }

  function YearMonthDay(julianDay: int): Civil {
    var a := julianDay + 32044;
    var b := Quot(4 * a + 3, 146097);
    var c := a - Quot(b * 146097, 4);
    var d := Quot(4 * c + 3, 1461);
    var e := c - Quot(1461 * d, 4);
    FromMarchYear(b * 100 + d, e)
  }

  /** The date `e` days into the year that starts in March of shifted year `y`. */
  function FromMarchYear(y: int, e: int): Civil {
    var m := Quot(5 * e + 2, 153);
    Civil(y - 4800 + Quot(m, 10), m + 3 - 12 * Quot(m, 10), e - Quot(153 * m + 2, 5) + 1)
  }

  function WeekDay(julianDay: int): int {
    Rem(julianDay + 1, 7)
  }

  const JULIAN_DAY_OF_EPOCH := JulianDayNumber(Civil(1970, 1, 1))

  /** Years counted from March, starting 4800 years before year 0: the `y` of the source. */
  function ShiftedYear(d: Civil): int {
    d.year + 4800 - (if d.month <= 2 then 1 else 0)
  }

  /** Months counted from March: the `m` of the source. */
  function ShiftedMonth(d: Civil): int {
    if d.month <= 2 then d.month + 9 else d.month - 3
  }

  /** Day within a year that starts in March: the `e` of the source. */
  function DayOfYear(d: Civil): int {
    (153 * ShiftedMonth(d) + 2) / 5 + d.day - 1
  }

  lemma DayOfYearRange(d: Civil)
    requires ValidDate(d)
    ensures 0 <= DayOfYear(d) <= 365
    ensures DayOfYear(d) == 365 ==> ShiftedMonth(d) == 11 && LeapYear(d.year)
    ensures (5 * DayOfYear(d) + 2) / 153 == ShiftedMonth(d)
  {
  }

  lemma Quarters(q: nat, r: nat)
    requires r < 100
    ensures (100 * q + r) / 4 == 25 * q + r / 4 && (100 * q + r) / 400 == q / 4
  {
  }

  /** Leap days before year `y`, regrouped by whole centuries. */
  lemma CenturySplit(y: nat)
    ensures YearStart(y)
            == (146097 * (y / 100)) / 4 + (1461 * (y % 100)) / 4
  {
    var q, r := y / 100, y % 100;
    assert y == 100 * q + r;
    Quarters(q, r);
    assert (146097 * q) / 4 == 36524 * q + q / 4;
    assert (1461 * r) / 4 == 365 * r + r / 4;
  }

  lemma RecoverCentury(q: nat, c: nat)
    requires 4 * c + 3 < 146097 + q % 4
    ensures (4 * ((146097 * q) / 4 + c) + 3) / 146097 == q
  {
  }

  lemma RecoverYear(r: nat, e: nat)
    requires r < 100 && e <= 365 && (e == 365 ==> r % 4 == 3)
    ensures (4 * ((1461 * r) / 4 + e) + 3) / 1461 == r
  {
  }

  /** Days counted before March of shifted year `y`. */
  function YearStart(y: int): int {
    y * 365 + Quot(y, 4) - Quot(y, 100) + Quot(y, 400)
  }

  lemma ByYear(d: Civil)
    requires ValidDate(d)
    ensures JulianDayNumber(d) == YearStart(ShiftedYear(d)) + DayOfYear(d) - 32044
  {
    assert ShiftedMonth(d) >= 0;
  }

  /** The day number is the sum of the centuries, the years and the days before it. */
  lemma DayNumberSplit(d: Civil)
    requires ValidDate(d) && ShiftedYear(d) >= 0
    ensures var y := ShiftedYear(d);
            JulianDayNumber(d) + 32044
            == (146097 * (y / 100)) / 4 + (1461 * (y % 100)) / 4 + DayOfYear(d)
  {
    hide JulianDayNumber, DayOfYear, ValidDate;
    ByYear(d);
    CenturySplit(ShiftedYear(d));
  }

  /** 29 February ends the fourth year of its cycle; in year 99 it ends a leap century. */
  lemma LeapDayPlace(d: Civil)
    requires ValidDate(d) && DayOfYear(d) == 365
    ensures ShiftedYear(d) % 4 == 3
    ensures ShiftedYear(d) % 100 == 99 ==> (ShiftedYear(d) / 100) % 4 == 3
  {
    DayOfYearRange(d);
    hide LeapYear, DayOfYear;
    LeapYearPlace(d.year);
  }

  lemma LeapYearPlace(year: int)
    requires LeapYear(year)
    ensures var y := year + 4799;
            y % 4 == 3 && (y % 100 == 99 ==> (y / 100) % 4 == 3)
  {
    ModFour(year / 4 + 1199, 3);
    if year % 100 == 0 {
      assert year + 4799 == 100 * (4 * (year / 400) + 47) + 99;
    } else {
      ModHundred(year / 100 + 48, year % 100 - 1);
    }
  }

  /** YearMonthDay divides out the century, then the year. */
  lemma DivideOut(a: nat, q: nat, c: nat, r: nat)
    requires (4 * a + 3) / 146097 == q && c == a - (q * 146097) / 4
    requires (4 * c + 3) / 1461 == r
    ensures YearMonthDay(a - 32044) == FromMarchYear(q * 100 + r, c - (1461 * r) / 4)
  {
  }

  lemma JoinThenDivide(q: nat, r: nat, e: nat)
    requires r < 100 && e <= 365
    requires e == 365 ==> r % 4 == 3 && (r == 99 ==> q % 4 == 3)
    ensures YearMonthDay((146097 * q) / 4 + (1461 * r) / 4 + e - 32044) == FromMarchYear(q * 100 + r, e)
  {
    hide YearMonthDay, FromMarchYear;
    var c := (1461 * r) / 4 + e;
    RecoverCentury(q, c);
    RecoverYear(r, e);
    DivideOut((146097 * q) / 4 + c, q, c, r);
  }

  lemma FromMarchYearRecovers(d: Civil)
    requires ValidDate(d)
    ensures FromMarchYear(ShiftedYear(d), DayOfYear(d)) == d
  {
    DayOfYearRange(d);
  }

  lemma ModFour(x: int, r: int)
    ensures (4 * x + r) % 4 == r % 4
  {
  }

  lemma ModHundred(x: int, r: int)
    requires 0 <= r < 100
    ensures (100 * x + r) % 100 == r
  {
  }

  lemma HundredsKeepFours(y: nat)
    ensures y % 100 % 4 == y % 4 && y / 100 * 100 + y % 100 == y
  {
    ModFour(25 * (y / 100), y % 100);
  }

  lemma JoinThenDivideDate(d: Civil)
    requires ValidDate(d) && ShiftedYear(d) >= 0
    ensures YearMonthDay(JulianDayNumber(d)) == FromMarchYear(ShiftedYear(d), DayOfYear(d))
  {
    hide YearMonthDay, FromMarchYear, JulianDayNumber;
    var y, e := ShiftedYear(d), DayOfYear(d);
    DayOfYearRange(d);
    if e == 365 {
      LeapDayPlace(d);
    }
    hide ShiftedYear, DayOfYear, ValidDate, LeapYear, ShiftedMonth;
    HundredsKeepFours(y);
    JoinThenDivide(y / 100, y % 100, e);
    DayNumberSplit(d);
  }

  lemma ForwardRoundTrip(d: Civil)
    requires ValidDate(d) && ShiftedYear(d) >= 0
    ensures YearMonthDay(JulianDayNumber(d)) == d
  {
    JoinThenDivideDate(d);
    FromMarchYearRecovers(d);
  }

  lemma LeapYearEnds(y: nat)
    requires y % 4 == 3 && (y % 100 == 99 ==> (y / 100) % 4 == 3)
    ensures LeapYear(y + 1 - 4800)
  {
    HundredsKeepFours(y);
    LeapYearEndsAt(y / 100, y % 100);
  }

  lemma LeapYearEndsAt(q: nat, r: nat)
    requires r < 100 && r % 4 == 3 && (r == 99 ==> q % 4 == 3)
    ensures LeapYear(100 * q + r + 1 - 4800)
  {
    var year := 100 * q + r + 1 - 4800;
    if r == 99 {
      assert year == 400 * (q / 4 - 11);
    } else {
      ModFour(25 * q - 1200, r + 1);
      ModHundred(q - 48, r + 1);
    }
  }

  lemma FromMarchYearValid(y: nat, e: nat)
    requires e <= 365
    requires e == 365 ==> y % 4 == 3 && (y % 100 == 99 ==> (y / 100) % 4 == 3)
    ensures var d := FromMarchYear(y, e);
            ValidDate(d) && ShiftedYear(d) == y && DayOfYear(d) == e
  {
    if e == 365 {
      LeapYearEnds(y);
      assert FromMarchYear(y, e) == Civil(y + 1 - 4800, 2, 29);
    } else {
      hide LeapYear;
      assert (5 * e + 2) / 153 == 11 ==> e >= 337;
    }
  }

  lemma DivisionRanges(a: nat)
    returns (q: nat, r: nat, e: nat)
    ensures YearMonthDay(a - 32044) == FromMarchYear(q * 100 + r, e)
    ensures r < 100 && e <= 365
    ensures e == 365 ==> r % 4 == 3 && (r == 99 ==> q % 4 == 3)
    ensures a == (146097 * q) / 4 + (1461 * r) / 4 + e
  {
    hide FromMarchYear;
    q := (4 * a + 3) / 146097;
    assert 4 * ((146097 * q) / 4) == 146097 * q - q % 4;
    var c := a - (q * 146097) / 4;
    assert 0 <= c <= 36524 && (c == 36524 ==> q % 4 == 3);
    r := (4 * c + 3) / 1461;
    e := c - (1461 * r) / 4;
    DivideOut(a, q, c, r);
  }

  /** Every day number from FIRST_DAY on names a valid date, and that date's number is the one given. */
  lemma DayRoundTrip(julianDay: int)
    requires julianDay >= FIRST_DAY
    ensures var d := YearMonthDay(julianDay);
            ValidDate(d) && ShiftedYear(d) >= 0 && JulianDayNumber(d) == julianDay
  {
    hide YearMonthDay, FromMarchYear, JulianDayNumber;
    var q, r, e := DivisionRanges(julianDay + 32044);
    var y := q * 100 + r;
    assert y / 100 == q && y % 100 == r && y % 4 == r % 4;
    FromMarchYearValid(y, e);
    DayNumberSplit(FromMarchYear(y, e));
  }

  lemma NegativeRemainders(a: int)
    returns (y: int, e: int)
    requires a < 0
    ensures YearMonthDay(a - 32044) == FromMarchYear(y, e) && e < 0
  {
    hide FromMarchYear;
    var b := Quot(4 * a + 3, 146097);
    var c := a - Quot(b * 146097, 4);
    assert c < 0;
    var d := Quot(4 * c + 3, 1461);
    e := c - Quot(1461 * d, 4);
    y := b * 100 + d;
  }

  lemma NegativeDayOfMonth(y: int, e: int)
    requires e < 0
    ensures FromMarchYear(y, e).day <= 0
  {
  }

  /** Truncating division yields no date at all below FIRST_DAY. */
  lemma ValidExactlyFromFirstDay(julianDay: int)
    ensures ValidDate(YearMonthDay(julianDay)) <==> julianDay >= FIRST_DAY
  {
    hide YearMonthDay, FromMarchYear;
    if julianDay >= FIRST_DAY {
      DayRoundTrip(julianDay);
    } else {
      var y, e := NegativeRemainders(julianDay + 32044);
      NegativeDayOfMonth(y, e);
    }
  }

  /** The conversion inverts itself on exactly the dates whose shifted year is not negative. */
  lemma DateRoundTrip(d: Civil)
    requires ValidDate(d)
    ensures YearMonthDay(JulianDayNumber(d)) == d <==> ShiftedYear(d) >= 0
  {
    hide YearMonthDay, JulianDayNumber;
    if ShiftedYear(d) >= 0 {
      ForwardRoundTrip(d);
    } else if YearMonthDay(JulianDayNumber(d)) == d {
      ValidExactlyFromFirstDay(JulianDayNumber(d));
      DayRoundTrip(JulianDayNumber(d));
    }
  }

  /** Before that the numbering collides: 29 February and 1 March of year -4800 share a number. */
  lemma CollisionBelowFirstDay()
    ensures ValidDate(Civil(-4800, 2, 29)) && ValidDate(Civil(-4800, 3, 1))
    ensures JulianDayNumber(Civil(-4800, 2, 29)) == JulianDayNumber(Civil(-4800, 3, 1))
  {
  }

  /** Shifted year `y` is counted with a leap day: below 0, truncating division puts it a year too early. */
  predicate CountedLeap(y: int) {
    LeapYear(if y >= 0 then y + 1 else y)
  }

  lemma QuotStep4(y: int)
    ensures Quot(y + 1, 4) - Quot(y, 4) == if (if y >= 0 then y + 1 else y) % 4 == 0 then 1 else 0
  {
  }

  lemma QuotStep100(y: int)
    ensures Quot(y + 1, 100) - Quot(y, 100) == if (if y >= 0 then y + 1 else y) % 100 == 0 then 1 else 0
  {
  }

  lemma QuotStep400(y: int)
    ensures Quot(y + 1, 400) - Quot(y, 400) == if (if y >= 0 then y + 1 else y) % 400 == 0 then 1 else 0
  {
  }

  lemma YearLength(y: int)
    ensures YearStart(y + 1) - YearStart(y) == if CountedLeap(y) then 366 else 365
  {
    hide Quot;
    QuotStep4(y);
    QuotStep100(y);
    QuotStep400(y);
    LeapCount(if y >= 0 then y + 1 else y);
  }

  lemma LeapCount(z: int)
    ensures (if z % 4 == 0 then 1 else 0) - (if z % 100 == 0 then 1 else 0) + (if z % 400 == 0 then 1 else 0)
            == if LeapYear(z) then 1 else 0
  {
  }

  lemma ModFourHundred(x: int, r: int)
    requires 0 <= r < 400
    ensures (400 * x + r) % 400 == r
  {
  }

  /** The calendar repeats every 400 years. */
  lemma LeapShifted(y: int)
    ensures LeapYear(y - 4800) <==> LeapYear(y)
  {
    ModFour(-1200, y);
    ModHundred(y / 100 - 48, y % 100);
    ModFourHundred(y / 400 - 12, y % 400);
  }

  lemma NotTwoLeapYears(y: int)
    ensures !(LeapYear(y) && LeapYear(y - 1))
  {
  }

  predicate LastOfFebruary(d: Civil) {
    d.month == 2 && d.day == DaysInMonth(d.year, 2)
  }

  lemma NextInMarchYear(d: Civil)
    requires ValidDate(d)
    ensures ValidDate(NextDate(d))
    ensures if LastOfFebruary(d)
            then ShiftedYear(NextDate(d)) == ShiftedYear(d) + 1 && DayOfYear(NextDate(d)) == 0
                 && DayOfYear(d) == (if LeapYear(d.year) then 365 else 364)
            else ShiftedYear(NextDate(d)) == ShiftedYear(d) && DayOfYear(NextDate(d)) == DayOfYear(d) + 1
  {
  }

  /** How the year that ends with `d` is counted, in terms of its own years. */
  lemma CountedAtEnd(d: Civil)
    requires d.month == 2
    ensures CountedLeap(ShiftedYear(d)) <==> LeapYear(if ShiftedYear(d) >= 0 then d.year else d.year - 1)
  {
    hide LeapYear;
    LeapShifted(d.year + 4800);
    LeapShifted(d.year + 4799);
  }

  /**
   * The next calendar day has the next number, except below the first day at the end of a February in a leap year or
   * the year after one.
   */
  lemma NextDayNextNumber(d: Civil)
    requires ValidDate(d)
    ensures ValidDate(NextDate(d))
    ensures JulianDayNumber(NextDate(d)) == JulianDayNumber(d) + 1 <==>
              || ShiftedYear(d) >= 0
              || !LastOfFebruary(d)
              || (!LeapYear(d.year) && !LeapYear(d.year - 1))
  {
    hide JulianDayNumber, NextDate, DayOfYear, YearStart, LeapYear, CountedLeap;
    NextInMarchYear(d);
    YearLength(ShiftedYear(d));
    ByYear(d);
    ByYear(NextDate(d));
    if LastOfFebruary(d) {
      CountedAtEnd(d);
      NotTwoLeapYears(d.year);
    }
  }

  lemma {:induction false} YearStartsApart(y: int, z: int)
    requires y < z
    ensures YearStart(z) >= YearStart(y) + (if CountedLeap(y) then 366 else 365) + 365 * (z - y - 1)
    decreases z - y
  {
    hide YearStart, CountedLeap;
    YearLength(y);
    if y + 1 < z {
      YearStartsApart(y + 1, z);
    }
  }

  lemma BeforeInMarchYear(d: Civil, e: Civil)
    requires ValidDate(d) && ValidDate(e) && Before(d, e)
    ensures ShiftedYear(d) < ShiftedYear(e) || (ShiftedYear(d) == ShiftedYear(e) && DayOfYear(d) < DayOfYear(e))
  {
  }

  lemma LastDayOfYear(d: Civil)
    requires ValidDate(d)
    ensures 0 <= DayOfYear(d) <= 365
    ensures DayOfYear(d) == 365 ==> d.month == 2 && d.day == 29 && LeapYear(d.year)
  {
    DayOfYearRange(d);
  }

  /** 29 February below the first day and the 1 March after it, which get the same number. */
  predicate Collide(d: Civil, e: Civil) {
    ShiftedYear(d) < 0 && d.month == 2 && d.day == 29 && e == NextDate(d)
  }

  lemma CollideOnNumber(d: Civil, e: Civil)
    requires ValidDate(d) && Collide(d, e)
    ensures JulianDayNumber(d) == JulianDayNumber(e) && Before(d, e)
  {
    hide JulianDayNumber, DayOfYear, YearStart, LeapYear, CountedLeap;
    LastOfFebruaryInLeapYear(d);
    NextInMarchYear(d);
    CountedAtEnd(d);
    NotTwoLeapYears(d.year);
    YearLength(ShiftedYear(d));
    ByYear(d);
    ByYear(e);
  }

  lemma LastOfFebruaryInLeapYear(d: Civil)
    requires ValidDate(d) && d.month == 2 && d.day == 29
    ensures LeapYear(d.year) && LastOfFebruary(d)
  {
  }

  lemma FirstOfMarch(d: Civil, e: Civil)
    requires ValidDate(d) && ValidDate(e) && ShiftedYear(e) == ShiftedYear(d) + 1
    requires DayOfYear(d) == 365 && DayOfYear(e) == 0
    ensures e == NextDate(d)
  {
    DayOfYearRange(d);
    DayOfYearRange(e);
  }

  lemma BeforeIsLess(d: Civil, e: Civil)
    requires ValidDate(d) && ValidDate(e) && Before(d, e) && !Collide(d, e)
    ensures JulianDayNumber(d) < JulianDayNumber(e)
  {
    hide JulianDayNumber, DayOfYear, YearStart, LeapYear, CountedLeap, ValidDate, Before, NextDate;
    BeforeInMarchYear(d, e);
    ByYear(d);
    ByYear(e);
    LastDayOfYear(d);
    LastDayOfYear(e);
    if ShiftedYear(d) < ShiftedYear(e) {
      YearStartsApart(ShiftedYear(d), ShiftedYear(e));
      if DayOfYear(d) == 365 && ShiftedYear(e) == ShiftedYear(d) + 1 {
        CountedAtEnd(d);
        if DayOfYear(e) == 0 {
          FirstOfMarch(d, e);
        }
      }
    }
  }

  /** Comparing day numbers, as operator< does, compares dates, but for the pairs that collide. */
  lemma OrderIsCalendarOrder(d: Civil, e: Civil)
    requires ValidDate(d) && ValidDate(e)
    ensures JulianDayNumber(d) < JulianDayNumber(e) <==> Before(d, e) && !Collide(d, e)
    ensures JulianDayNumber(d) == JulianDayNumber(e) <==> d == e || Collide(d, e) || Collide(e, d)
  {
    hide JulianDayNumber, Collide, ValidDate;
    if Collide(d, e) {
      CollideOnNumber(d, e);
    } else if Collide(e, d) {
      CollideOnNumber(e, d);
    } else if Before(d, e) {
      BeforeIsLess(d, e);
    } else if Before(e, d) {
      BeforeIsLess(e, d);
    }
  }
}
