/** UTC seconds and broken-down time (src/muduo/base/TimeZone.cc). */
module UtcTime {
  import opened CppInt
  import opened Calendar
  import Date

  const SECONDS_PER_DAY := 86400

  datatype Tm = Tm(sec: int, min: int, hour: int, mday: int, mon: int, year: int,
                   wday: int, yday: int, isDst: bool, gmtOffset: int)

  lemma EpochDay()
    ensures Date.JULIAN_DAY_OF_EPOCH == 2440588
  {
  }

  function DayNumber(t: int): int {
    t / SECONDS_PER_DAY + Date.JULIAN_DAY_OF_EPOCH
  }

  /** The first second whose day has a valid date. */
  const FIRST_SECOND := (Date.FIRST_DAY - Date.JULIAN_DAY_OF_EPOCH) * SECONDS_PER_DAY

  function CivilOf(tm: Tm): Civil {
    Civil(tm.year + 1900, tm.mon + 1, tm.mday)
  }

  /** The second of the day and the date of the day, days counted by floor; the weekday by the source's remainder. */
  function BrokenDown(t: int, yday: bool): Tm {
    var s := t % SECONDS_PER_DAY;
    var date := Date.YearMonthDay(DayNumber(t));
    Tm(s % 60, s / 60 % 60, s / 3600, date.day, date.month - 1, date.year - 1900,
       Date.WeekDay(DayNumber(t)),
       if yday then DayNumber(t) - Date.JulianDayNumber(Civil(date.year, 1, 1)) else 0,
       false, 0)
  }

  method FillHMS(seconds: nat, tm: Tm) returns (utc: Tm)
    ensures utc == tm.(sec := seconds % 60, min := seconds / 60 % 60, hour := seconds / 3600)
  {
    utc := tm.(sec := seconds % 60);
    var minutes := seconds / 60;
    utc := utc.(min := minutes % 60);
    utc := utc.(hour := minutes / 60);
  }

  lemma FloorByCorrection(t: int)
    ensures var seconds, days := Rem(t, SECONDS_PER_DAY), Quot(t, SECONDS_PER_DAY);
            && (seconds < 0 ==> seconds + SECONDS_PER_DAY == t % SECONDS_PER_DAY && days - 1 == t / SECONDS_PER_DAY)
            && (seconds >= 0 ==> seconds == t % SECONDS_PER_DAY && days == t / SECONDS_PER_DAY)
  {
  }

  /** Truncating division with its correction for instants before the epoch is floor division. */
  method ToUtcTime(secondsSinceEpoch: int, yday: bool) returns (utc: Tm)
    ensures utc == BrokenDown(secondsSinceEpoch, yday)
  {
    hide Quot, Rem, Date.YearMonthDay, Date.WeekDay, Date.JulianDayNumber;
    FloorByCorrection(secondsSinceEpoch);
    utc := Tm(0, 0, 0, 0, 0, 0, 0, 0, false, 0);
    var seconds := Rem(secondsSinceEpoch, SECONDS_PER_DAY);
    var days := Quot(secondsSinceEpoch, SECONDS_PER_DAY);
    if seconds < 0 {
      seconds := seconds + SECONDS_PER_DAY;
      days := days - 1;
    }
    utc := FillHMS(seconds, utc);
    var day := days + Date.JULIAN_DAY_OF_EPOCH;
    var ymd := Date.YearMonthDay(day);
    utc := utc.(year := ymd.year - 1900);
    utc := utc.(mon := ymd.month - 1);
    utc := utc.(mday := ymd.day);
    utc := utc.(wday := Date.WeekDay(day));
    if yday {
      var startOfYear := Date.JulianDayNumber(Civil(ymd.year, 1, 1));
      utc := utc.(yday := day - startOfYear);
    }
  }

  function FromUtcTime(utc: Tm): int {
    var date := Civil(utc.year + 1900, utc.mon + 1, utc.mday);
    var secondsInDay := utc.hour * 3600 + utc.min * 60 + utc.sec;
    (Date.JulianDayNumber(date) - Date.JULIAN_DAY_OF_EPOCH) * SECONDS_PER_DAY + secondsInDay
  }

  /** fromUtcTime inverts toUtcTime on every second of every valid day, before or after the epoch. */
  lemma SecondsRoundTrip(t: int, yday: bool)
    requires t >= FIRST_SECOND
    ensures FromUtcTime(BrokenDown(t, yday)) == t
    ensures ValidDate(CivilOf(BrokenDown(t, yday)))
  {
    hide Date.YearMonthDay, Date.WeekDay, Date.JulianDayNumber;
    assert DayNumber(t) >= Date.FIRST_DAY;
    Date.DayRoundTrip(DayNumber(t));
    var s := t % SECONDS_PER_DAY;
    assert s == s / 3600 * 3600 + (s / 60 % 60) * 60 + s % 60;
  }

  /** The same calendar and clock fields; weekday and day of year are derived, not compared. */
  predicate SameInstant(a: Tm, b: Tm) {
    && a.sec == b.sec && a.min == b.min && a.hour == b.hour
    && a.mday == b.mday && a.mon == b.mon && a.year == b.year
  }

  predicate ClockInRange(tm: Tm) {
    0 <= tm.sec < 60 && 0 <= tm.min < 60 && 0 <= tm.hour < 24
  }

  lemma SplitSeconds(days: int, hour: int, min: int, sec: int)
    requires 0 <= sec < 60 && 0 <= min < 60 && 0 <= hour < 24
    ensures var t := days * SECONDS_PER_DAY + (hour * 3600 + min * 60 + sec);
            var s := t % SECONDS_PER_DAY;
            t / SECONDS_PER_DAY == days && s % 60 == sec && s / 60 % 60 == min && s / 3600 == hour
  {
    var s := hour * 3600 + min * 60 + sec;
    OutOfDays(days, s);
    OutOfSixty(hour * 60 + min, sec);
    OutOfSixty(hour, min);
    assert s == 60 * (hour * 60 + min) + sec;
  }

  lemma OutOfDays(days: int, s: int)
    requires 0 <= s < SECONDS_PER_DAY
    ensures (days * SECONDS_PER_DAY + s) / SECONDS_PER_DAY == days && (days * SECONDS_PER_DAY + s) % SECONDS_PER_DAY == s
  {
  }

  lemma OutOfSixty(x: int, r: int)
    requires 0 <= r < 60
    ensures (60 * x + r) / 60 == x && (60 * x + r) % 60 == r
  {
  }

  /** toUtcTime inverts fromUtcTime on every valid date and time of day. */
  lemma FieldsRoundTrip(tm: Tm, yday: bool)
    requires ClockInRange(tm) && ValidDate(CivilOf(tm)) && Date.ShiftedYear(CivilOf(tm)) >= 0
    ensures SameInstant(BrokenDown(FromUtcTime(tm), yday), tm)
  {
    hide Date.YearMonthDay, Date.WeekDay, Date.JulianDayNumber;
    Date.DateRoundTrip(CivilOf(tm));
    SplitSeconds(Date.JulianDayNumber(CivilOf(tm)) - Date.JULIAN_DAY_OF_EPOCH, tm.hour, tm.min, tm.sec);
  }

  predicate FieldsInRange(tm: Tm) {
    ClockInRange(tm) && 0 <= tm.mon < 12 && ValidDate(CivilOf(tm)) && 0 <= tm.wday < 7
  }

  /**
   * Every field is in range from Julian day -1 on. Before that the truncating remainder makes the
   * weekday negative except on Sundays, and before FIRST_SECOND there is no valid date.
   */
  lemma RangeExactly(t: int, yday: bool)
    ensures FieldsInRange(BrokenDown(t, yday))
            <==> DayNumber(t) >= -1 || (t >= FIRST_SECOND && (DayNumber(t) + 1) % 7 == 0)
  {
    hide Date.YearMonthDay, Date.JulianDayNumber;
    Date.ValidExactlyFromFirstDay(DayNumber(t));
    assert t >= FIRST_SECOND <==> DayNumber(t) >= Date.FIRST_DAY;
  }

  lemma ModSeven(x: int, r: int)
    requires 0 <= r < 7
    ensures (7 * x + r) % 7 == r
  {
  }

  /** Truncated and floored remainders of a negative number, and of the next one. */
  lemma NegativeRemainders(n: int)
    requires n < 0
    ensures n % 7 == if -n % 7 == 0 then 0 else 7 - -n % 7
    ensures -(n + 1) % 7 == if -n % 7 == 0 then 6 else -n % 7 - 1
  {
    var q, r := -n / 7, -n % 7;
    if r == 0 {
      ModSeven(-q, 0);
      ModSeven(q - 1, 6);
    } else {
      ModSeven(-q - 1, 7 - r);
      ModSeven(q, r - 1);
    }
  }

  lemma WeekDayStep(day: int)
    ensures Date.WeekDay(day + 1) == (Date.WeekDay(day) + 1) % 7 <==> day >= -1 || (day + 1) % 7 == 6
  {
    if day < -1 {
      NegativeRemainders(day + 1);
      WeekDayBefore(-(day + 1) % 7);
    }
  }

  /** The truncated weekday is minus the remainder: only from -1 does it get to the next one modulo 7. */
  lemma WeekDayBefore(r: int)
    requires 0 <= r < 7
    ensures (if r == 0 then -6 else 1 - r) == (1 - r) % 7 <==> r == 1
  {
  }

  /**
   * The weekday steps through the week from Julian day -1 on. Before that the truncating remainder makes it negative,
   * and it comes out as the next one modulo 7 only when it gets to a Sunday. The epoch fell on a Thursday.
   */
  lemma WeekDayAdvances(t: int, yday: bool)
    ensures BrokenDown(t + SECONDS_PER_DAY, yday).wday == (BrokenDown(t, yday).wday + 1) % 7
            <==> DayNumber(t) >= -1 || (DayNumber(t) + 1) % 7 == 6
    ensures BrokenDown(0, yday).wday == 4
  {
    assert BrokenDown(0, yday).wday == 4 by {
      hide Date.YearMonthDay, Date.JulianDayNumber;
      EpochDay();
    }
    hide Date.YearMonthDay, Date.JulianDayNumber, Date.WeekDay;
    assert DayNumber(t + SECONDS_PER_DAY) == DayNumber(t) + 1;
    WeekDayStep(DayNumber(t));
  }

  /** The weekday is counted from Thursday, 1 January 1970, from Julian day -1 on, and on every Sunday before. */
  lemma WeekDayFromEpoch(t: int, yday: bool)
    ensures BrokenDown(t, yday).wday == (t / SECONDS_PER_DAY + 4) % 7
            <==> DayNumber(t) >= -1 || (DayNumber(t) + 1) % 7 == 0
  {
    hide Date.YearMonthDay, Date.JulianDayNumber;
    EpochDay();
    var d := t / SECONDS_PER_DAY;
    assert (d + 2440589) % 7 == (d + 4) % 7;
  }

  /** Second 0 is midnight at the start of 1 January 1970. */
  lemma EpochIs1970()
    ensures var tm := BrokenDown(0, true);
            CivilOf(tm) == Civil(1970, 1, 1) && tm.hour == 0 && tm.min == 0 && tm.sec == 0 && tm.yday == 0
  {
    hide Date.YearMonthDay, Date.JulianDayNumber, Date.WeekDay;
    Date.DateRoundTrip(Civil(1970, 1, 1));
  }

  /** The day after the Sunday with Julian day -8 has weekday -6. */
  lemma WeekDayNegative()
    ensures var t := (-8 - Date.JULIAN_DAY_OF_EPOCH) * SECONDS_PER_DAY;
            BrokenDown(t, false).wday == 0 && BrokenDown(t + SECONDS_PER_DAY, false).wday == -6
  {
    hide Date.YearMonthDay, Date.JulianDayNumber;
    var t := (-8 - Date.JULIAN_DAY_OF_EPOCH) * SECONDS_PER_DAY;
    assert DayNumber(t) == -8 && DayNumber(t + SECONDS_PER_DAY) == -7;
  }

  /** Days of the months before `month`, added up. */
  function DaysBefore(year: int, month: int): int
    decreases month
  {
    if month <= 1 then 0 else DaysBefore(year, month - 1) + DaysInMonth(year, month - 1)
  }

  lemma {:induction false} FirstOfMonth(year: int, month: int)
    requires 1 <= month <= 12 && year >= -4799
    ensures Date.JulianDayNumber(Civil(year, month, 1))
            == Date.JulianDayNumber(Civil(year, 1, 1)) + DaysBefore(year, month)
    decreases month
  {
    hide Date.JulianDayNumber;
    if month > 1 {
      FirstOfMonth(year, month - 1);
      var last := Civil(year, month - 1, DaysInMonth(year, month - 1));
      Date.NextDayNextNumber(last);
      SameMonth(last);
    }
  }

  lemma SameMonth(d: Civil)
    ensures Date.JulianDayNumber(d) == Date.JulianDayNumber(d.(day := 1)) + d.day - 1
  {
  }

  lemma FirstWholeYear(d: Civil)
    requires ValidDate(d) && Date.ShiftedYear(d) >= 0 && Date.JulianDayNumber(d) >= Date.FIRST_DAY + 306
    ensures d.year >= -4799
  {
  }

  /** The first valid day is 1 March of a leap year whose 1 January has no number of its own. */
  lemma {:induction false} FirstOfMonthInFirstYear(month: int)
    requires 3 <= month <= 12
    ensures Date.JulianDayNumber(Civil(-4800, month, 1))
            == Date.JulianDayNumber(Civil(-4800, 1, 1)) + DaysBefore(-4800, month) - 1
    decreases month
  {
    hide Date.JulianDayNumber;
    if month == 3 {
      FirstMarch();
    } else {
      FirstOfMonthInFirstYear(month - 1);
      var last := Civil(-4800, month - 1, DaysInMonth(-4800, month - 1));
      Date.NextDayNextNumber(last);
      SameMonth(last);
    }
  }

  lemma FirstMarch()
    ensures Date.JulianDayNumber(Civil(-4800, 3, 1)) == Date.JulianDayNumber(Civil(-4800, 1, 1)) + DaysBefore(-4800, 3) - 1
  {
    hide DaysBefore;
    assert LeapYear(-4800);
    MarchInLeapYear(-4800);
  }

  lemma MarchInLeapYear(year: int)
    requires LeapYear(year)
    ensures DaysBefore(year, 3) == 60
  {
    assert DaysBefore(year, 2) == 31;
  }

  lemma FirstNewYear()
    ensures Date.JulianDayNumber(Civil(-4799, 1, 1)) == Date.FIRST_DAY + 306
  {
  }

  lemma FirstPartYear(d: Civil)
    requires ValidDate(d) && Date.ShiftedYear(d) >= 0 && Date.JulianDayNumber(d) < Date.FIRST_DAY + 306
    ensures d.year == -4800 && d.month >= 3
  {
    hide Date.JulianDayNumber;
    if d.year >= -4799 {
      Date.OrderIsCalendarOrder(d, Civil(-4799, 1, 1));
      FirstNewYear();
    }
  }

  /** Days since 1 January by the month lengths. */
  function DayOfCivilYear(d: Civil): int {
    DaysBefore(d.year, d.month) + d.day - 1
  }

  /**
   * tm_yday is the number of days since 1 January, from 0 to 365, exactly from the first whole year on; in the
   * valid days before that it is one short, since the number of 1 January is truncated.
   */
  lemma YdayCountsDays(t: int)
    requires t >= FIRST_SECOND
    ensures var tm := BrokenDown(t, true);
            && (tm.yday == DayOfCivilYear(CivilOf(tm)) <==> DayNumber(t) >= Date.FIRST_DAY + 306)
            && (DayNumber(t) < Date.FIRST_DAY + 306 ==> tm.yday == DayOfCivilYear(CivilOf(tm)) - 1)
            && 0 <= DayOfCivilYear(CivilOf(tm)) <= 365
  {
    hide Date.YearMonthDay, Date.WeekDay, Date.JulianDayNumber;
    var d := Date.YearMonthDay(DayNumber(t));
    assert DayNumber(t) >= Date.FIRST_DAY;
    Date.DayRoundTrip(DayNumber(t));
    SameMonth(d);
    DaysBeforeRange(d.year, d.month);
    if DayNumber(t) >= Date.FIRST_DAY + 306 {
      FirstWholeYear(d);
      FirstOfMonth(d.year, d.month);
    } else {
      FirstPartYear(d);
      FirstOfMonthInFirstYear(d.month);
    }
  }

  lemma ClockAddsUp(t: int)
    ensures var tm := BrokenDown(t, true); tm.hour * 3600 + tm.min * 60 + tm.sec == t % 86400
  {
    hide Date.YearMonthDay, Date.JulianDayNumber, Date.WeekDay;
    var s := t % 86400;
    assert s / 60 == s / 3600 * 60 + s / 60 % 60;
  }

  /** Clock, instant, day of the year and weekday together, from the first whole year and Julian day -1 on. */
  lemma DerivedFields(t: int)
    ensures var tm := BrokenDown(t, true);
            && tm.hour * 3600 + tm.min * 60 + tm.sec == t % 86400
            && (t >= FIRST_SECOND ==> FromUtcTime(tm) == t)
            && (t >= FIRST_SECOND + 306 * 86400 ==> tm.yday == DayOfCivilYear(CivilOf(tm)))
            && (DayNumber(t) >= -1 ==> tm.wday == (t / 86400 + 4) % 7)
  {
    hide BrokenDown, FromUtcTime;
    ClockAddsUp(t);
    WeekDayFromEpoch(t, true);
    if t >= FIRST_SECOND {
      SecondsRoundTrip(t, true);
      YdayCountsDays(t);
    }
  }

  /** On the first valid day, 1 March -4800, tm_yday is 59 and should be 60. */
  lemma YdayOneShort()
    ensures var tm := BrokenDown(FIRST_SECOND, true);
            CivilOf(tm) == Civil(-4800, 3, 1) && tm.yday == 59 && DayOfCivilYear(CivilOf(tm)) == 60
  {
    hide Date.YearMonthDay, Date.WeekDay, Date.JulianDayNumber;
    assert DayNumber(FIRST_SECOND) == Date.FIRST_DAY;
    YdayCountsDays(FIRST_SECOND);
    FirstDate();
    assert DaysBefore(-4800, 2) == 31;
  }

  lemma FirstDate()
    ensures Date.YearMonthDay(Date.FIRST_DAY) == Civil(-4800, 3, 1)
  {
    hide Date.YearMonthDay, Date.JulianDayNumber;
    Date.DayRoundTrip(Date.FIRST_DAY);
    FirstNumber();
    Date.OrderIsCalendarOrder(Date.YearMonthDay(Date.FIRST_DAY), Civil(-4800, 3, 1));
  }

  lemma FirstNumber()
    ensures Date.JulianDayNumber(Civil(-4800, 3, 1)) == Date.FIRST_DAY
  {
  }

  lemma DaysBeforeRange(year: int, month: int)
    requires 1 <= month <= 12
    ensures 0 <= DaysBefore(year, month) <= 366 - DaysInMonth(year, month)
  {
  }
}

/** Local time by transition table (src/muduo/base/TimeZone.cc). */
module TimeZone {
  import opened UtcTime

  datatype Transition = Transition(gmttime: int, localtime: int, localtimeIdx: nat)

  datatype Localtime = Localtime(gmtOffset: int, isDst: bool)

  datatype Data = Data(transitions: seq<Transition>, localtimes: seq<Localtime>)

  predicate Int32(x: int) {
    -0x8000_0000 <= x < 0x8000_0000
  }

  /** What readTimeZoneFile builds: 32-bit times and offsets, local stamps derived from them. */
  ghost predicate ValidData(z: Data) {
    && z.localtimes != []
    && (forall k | 0 <= k < |z.localtimes| :: Int32(z.localtimes[k].gmtOffset))
    && (forall i | 0 <= i < |z.transitions| ::
          && z.transitions[i].localtimeIdx < |z.localtimes|
          && Int32(z.transitions[i].gmttime)
          && z.transitions[i].localtime
             == z.transitions[i].gmttime + z.localtimes[z.transitions[i].localtimeIdx].gmtOffset)
  }

  /** The field the comparator looks at. */
  function Key(tr: Transition, gmt: bool): int {
    if gmt then tr.gmttime else tr.localtime
  }

  /** Strictly ascending, as section 3.2 of RFC 8536 asks of the transition times. */
  ghost predicate Ascending(ts: seq<Transition>, gmt: bool) {
    forall i, j | 0 <= i < j < |ts| :: Key(ts[i], gmt) < Key(ts[j], gmt)
  }

  /** Linear scan for the last transition not after `at`; -1 before the first one. */
  function LastNotAfter(ts: seq<Transition>, at: int, gmt: bool): (k: int)
    ensures -1 <= k < |ts|
  {
    if ts == [] then -1
    else if Key(ts[|ts| - 1], gmt) <= at then |ts| - 1
    else LastNotAfter(ts[..|ts| - 1], at, gmt)
  }

  lemma {:induction false} LastNotAfterIs(ts: seq<Transition>, at: int, gmt: bool, k: int)
    requires Ascending(ts, gmt)
    requires -1 <= k < |ts|
    requires 0 <= k ==> Key(ts[k], gmt) <= at
    requires k + 1 < |ts| ==> at < Key(ts[k + 1], gmt)
    ensures LastNotAfter(ts, at, gmt) == k
  {
    if k < |ts| - 1 {
      var rest := ts[..|ts| - 1];
      assert forall i | 0 <= i < |rest| :: rest[i] == ts[i];
      LastNotAfterIs(rest, at, gmt, k);
    }
  }

  lemma {:induction false} LastNotAfterBounds(ts: seq<Transition>, at: int, gmt: bool)
    ensures var k := LastNotAfter(ts, at, gmt);
            && (0 <= k ==> Key(ts[k], gmt) <= at)
            && (k + 1 < |ts| ==> at < Key(ts[k + 1], gmt))
  {
    if ts != [] && Key(ts[|ts| - 1], gmt) > at {
      LastNotAfterBounds(ts[..|ts| - 1], at, gmt);
    }
  }

  /** std::lower_bound: the first position whose key is not below `at`. */
  method LowerBound(ts: seq<Transition>, at: int, gmt: bool) returns (k: nat)
    requires Ascending(ts, gmt)
    ensures k <= |ts|
    ensures forall i | 0 <= i < k :: Key(ts[i], gmt) < at
    ensures forall i | k <= i < |ts| :: at <= Key(ts[i], gmt)
  {
    k := 0;
    var count := |ts|;
    while count > 0
      invariant 0 <= count && k + count <= |ts|
      invariant forall i | 0 <= i < k :: Key(ts[i], gmt) < at
      invariant forall i | k + count <= i < |ts| :: at <= Key(ts[i], gmt)
    {
      var step := count / 2;
      if Key(ts[k + step], gmt) < at {
        k := k + step + 1;
        count := count - (step + 1);
      } else {
        count := step;
      }
    }
  }

  /** The local time type in force: that of transition `k`, or the first type before all transitions. */
  function TypeAt(z: Data, k: int): Localtime
    requires z.localtimes != []
  {
    if 0 <= k < |z.transitions| && z.transitions[k].localtimeIdx < |z.localtimes|
    then z.localtimes[z.transitions[k].localtimeIdx]
    else z.localtimes[0]
  }

  /** From one transition to the next its own type is in force, and before all of them the first type. */
  lemma TypeInForce(z: Data, at: int, gmt: bool, k: int)
    requires ValidData(z) && Ascending(z.transitions, gmt) && -1 <= k < |z.transitions|
    requires 0 <= k ==> Key(z.transitions[k], gmt) <= at
    requires k + 1 < |z.transitions| ==> at < Key(z.transitions[k + 1], gmt)
    ensures TypeAt(z, LastNotAfter(z.transitions, at, gmt))
            == if k < 0 then z.localtimes[0] else z.localtimes[z.transitions[k].localtimeIdx]
  {
    LastNotAfterIs(z.transitions, at, gmt, k);
  }

  method FindLocaltime(z: Data, sentry: Transition, compareGmt: bool) returns (local: Localtime)
    requires ValidData(z) && Ascending(z.transitions, compareGmt)
    ensures local == TypeAt(z, LastNotAfter(z.transitions, Key(sentry, compareGmt), compareGmt))
  {
    var ts, at := z.transitions, Key(sentry, compareGmt);
    ghost var found := -1;
    if ts == [] || at < Key(ts[0], compareGmt) {
      local := z.localtimes[0];
    } else {
      var k := LowerBound(ts, at, compareGmt);
      if k < |ts| {
        if at != Key(ts[k], compareGmt) {
          assert k != 0;
          k := k - 1;
        }
        local := z.localtimes[ts[k].localtimeIdx];
        found := k;
      } else {
        local := z.localtimes[ts[|ts| - 1].localtimeIdx];
        found := |ts| - 1;
      }
    }
    LastNotAfterIs(ts, at, compareGmt, found);
  }

  function SegmentAt(z: Data, t: int): int {
    LastNotAfter(z.transitions, t, true)
  }

  function LocalSegmentAt(z: Data, localSeconds: int): int {
    LastNotAfter(z.transitions, localSeconds, false)
  }

  function OffsetAt(z: Data, t: int): int
    requires z.localtimes != []
  {
    TypeAt(z, SegmentAt(z, t)).gmtOffset
  }

  function LocalOf(z: Data, t: int): Tm
    requires z.localtimes != []
  {
    var local := TypeAt(z, SegmentAt(z, t));
    BrokenDown(t + local.gmtOffset, true).(isDst := local.isDst, gmtOffset := local.gmtOffset)
  }

  /**
   * Local time is the UTC time of the shifted instant, its weekday and its day of the year included, with the offset
   * and the daylight-saving flag of the type in force.
   */
  lemma LocalFields(z: Data, t: int)
    requires z.localtimes != []
    ensures var tm, local := LocalOf(z, t), t + TypeAt(z, SegmentAt(z, t)).gmtOffset;
            && tm.gmtOffset == local - t && tm.isDst == TypeAt(z, SegmentAt(z, t)).isDst
            && tm.hour * 3600 + tm.min * 60 + tm.sec == local % 86400
            && (local >= FIRST_SECOND ==> FromUtcTime(tm) == local)
            && (local >= FIRST_SECOND + 306 * 86400 ==> tm.yday == DayOfCivilYear(CivilOf(tm)))
            && (DayNumber(local) >= -1 ==> tm.wday == (local / 86400 + 4) % 7)
  {
    hide BrokenDown, LastNotAfter, FromUtcTime;
    var local := t + TypeAt(z, SegmentAt(z, t)).gmtOffset;
    DerivedFields(local);
    SameFieldsSameSeconds(BrokenDown(local, true), LocalOf(z, t));
  }

  method ToLocalTime(z: Data, seconds: int) returns (localTime: Tm)
    requires ValidData(z) && Ascending(z.transitions, true)
    ensures localTime == LocalOf(z, seconds)
  {
    hide BrokenDown;
    var sentry := Transition(seconds, 0, 0);
    var local := FindLocaltime(z, sentry, true);
    var localSeconds := seconds + local.gmtOffset;
    localTime := ToUtcTime(localSeconds, true);
    localTime := localTime.(isDst := local.isDst);
    localTime := localTime.(gmtOffset := local.gmtOffset);
  }

  /** The instant fromLocalTime answers, with its one-hour correction out of a repeated hour. */
  function InstantOf(z: Data, localTm: Tm): int
    requires z.localtimes != []
  {
    var seconds := FromUtcTime(localTm);
    var offset := TypeAt(z, LocalSegmentAt(z, seconds)).gmtOffset;
    var tryTm := LocalOf(z, seconds - offset);
    if localTm.isDst && !tryTm.isDst && tryTm.hour == localTm.hour && tryTm.min == localTm.min
    then seconds - 3600 - offset
    else seconds - offset
  }

  /**
   * The answer is the local time less the offset in force by the local clock, and an hour less than that exactly when
   * the given time claims daylight saving, the instant so found has none, and its clock shows the same minute.
   */
  lemma CorrectionExactly(z: Data, tm: Tm)
    requires z.localtimes != [] && ClockInRange(tm)
    ensures var s := FromUtcTime(tm);
            var u := s - TypeAt(z, LocalSegmentAt(z, s)).gmtOffset;
            var sameMinute := (u + OffsetAt(z, u)) % 86400 / 60 == tm.hour * 60 + tm.min;
            InstantOf(z, tm) == u - if tm.isDst && !TypeAt(z, SegmentAt(z, u)).isDst && sameMinute then 3600 else 0
  {
    hide Date.YearMonthDay, Date.JulianDayNumber, Date.WeekDay, LastNotAfter, FromUtcTime;
    var s := FromUtcTime(tm);
    var u := s - TypeAt(z, LocalSegmentAt(z, s)).gmtOffset;
    var shown, c := LocalOf(z, u), (u + OffsetAt(z, u)) % 86400;
    assert c / 60 == c / 3600 * 60 + c / 60 % 60;
  }

  method FromLocalTime(z: Data, localTm: Tm) returns (instant: int)
    requires ValidData(z) && Ascending(z.transitions, true) && Ascending(z.transitions, false)
    ensures instant == InstantOf(z, localTm)
  {
    hide BrokenDown, FromUtcTime;
    var seconds := FromUtcTime(localTm);
    var sentry := Transition(0, seconds, 0);
    var local := FindLocaltime(z, sentry, false);
    if localTm.isDst {
      var tryTm := ToLocalTime(z, seconds - local.gmtOffset);
      if !tryTm.isDst && tryTm.hour == localTm.hour && tryTm.min == localTm.min {
        seconds := seconds - 3600;
      }
    }
    instant := seconds - local.gmtOffset;
  }

  /** How far the local clock is set back at transition `k`; negative when it is set forward. */
  function SetBack(z: Data, k: nat): int
    requires z.localtimes != []
  {
    TypeAt(z, k - 1).gmtOffset - TypeAt(z, k).gmtOffset
  }

  /** Both clocks ascend, and the local times repeated at a transition end before the next transition. */
  ghost predicate WellSeparated(z: Data)
    requires ValidData(z)
  {
    && Ascending(z.transitions, true)
    && Ascending(z.transitions, false)
    && (forall k: nat | k + 1 < |z.transitions| ::
          && SetBack(z, k) <= z.transitions[k + 1].gmttime - z.transitions[k].gmttime
          && SetBack(z, k) <= z.transitions[k + 1].localtime - z.transitions[k].localtime)
  }

  /** Transition `k` sets the clock back only by the hour that ends daylight saving. */
  predicate EndsDst(z: Data, k: nat)
    requires z.localtimes != []
  {
    SetBack(z, k) > 0 ==> SetBack(z, k) == 3600 && TypeAt(z, k - 1).isDst && !TypeAt(z, k).isDst
  }

  ghost predicate OnlyDstEndsSetBack(z: Data)
    requires z.localtimes != []
  {
    forall k: nat | k < |z.transitions| :: EndsDst(z, k)
  }

  /** Has a valid local date. */
  predicate Datable(z: Data, t: int)
    requires z.localtimes != []
  {
    t + OffsetAt(z, t) >= FIRST_SECOND
  }

  lemma LocalSeconds(z: Data, t: int)
    requires ValidData(z) && Datable(z, t)
    ensures FromUtcTime(LocalOf(z, t)) == t + OffsetAt(z, t)
  {
    hide BrokenDown;
    var local := TypeAt(z, SegmentAt(z, t));
    SecondsRoundTrip(t + local.gmtOffset, true);
    SameFieldsSameSeconds(BrokenDown(t + local.gmtOffset, true), LocalOf(z, t));
  }

  lemma SameFieldsSameSeconds(a: Tm, b: Tm)
    requires SameInstant(a, b)
    ensures FromUtcTime(a) == FromUtcTime(b)
  {
  }

  lemma SameClock(z: Data, t: int, u: int)
    requires ValidData(z) && t + OffsetAt(z, t) == u + OffsetAt(z, u)
    ensures LocalOf(z, t).hour == LocalOf(z, u).hour && LocalOf(z, t).min == LocalOf(z, u).min
  {
    hide BrokenDown, LastNotAfter;
  }

  /** Local seconds fall in the segment of the instant, or in the next one when that sets the clock back past it. */
  lemma LocalSegment(z: Data, t: int)
    requires ValidData(z) && WellSeparated(z)
    ensures var k := SegmentAt(z, t);
            LocalSegmentAt(z, t + OffsetAt(z, t))
            == if k + 1 < |z.transitions| && t >= z.transitions[k + 1].gmttime - SetBack(z, k + 1) then k + 1 else k
  {
    hide LastNotAfter;
    var k := SegmentAt(z, t);
    LastNotAfterBounds(z.transitions, t, true);
    var at := t + OffsetAt(z, t);
    if k + 1 < |z.transitions| && t >= z.transitions[k + 1].gmttime - SetBack(z, k + 1) {
      LastNotAfterIs(z.transitions, at, false, k + 1);
    } else {
      LastNotAfterIs(z.transitions, at, false, k);
    }
  }

  /** Outside the repeated times the way back is exact, with no correction. */
  lemma UnrepeatedRoundTrip(z: Data, t: int)
    requires ValidData(z) && Datable(z, t)
    requires LocalSegmentAt(z, t + OffsetAt(z, t)) == SegmentAt(z, t)
    ensures InstantOf(z, LocalOf(z, t)) == t
  {
    hide LocalOf, FromUtcTime, LastNotAfter;
    LocalSeconds(z, t);
    assert LocalOf(z, t).isDst == TypeAt(z, SegmentAt(z, t)).isDst by { LocalIsDst(z, t); }
  }

  lemma LocalIsDst(z: Data, t: int)
    requires z.localtimes != []
    ensures LocalOf(z, t).isDst == TypeAt(z, SegmentAt(z, t)).isDst
  {
  }

  /** In the times repeated at transition `k` the way back lands `SetBack` later, less the correction. */
  lemma RepeatedInstant(z: Data, t: int, k: nat)
    requires ValidData(z) && WellSeparated(z) && Datable(z, t)
    requires k < |z.transitions| && SegmentAt(z, t) == k - 1
    requires t >= z.transitions[k].gmttime - SetBack(z, k)
    ensures InstantOf(z, LocalOf(z, t))
            == t + SetBack(z, k) - (if TypeAt(z, k - 1).isDst && !TypeAt(z, k).isDst then 3600 else 0)
  {
    hide LocalOf, FromUtcTime, LastNotAfter, ValidData;
    LastNotAfterBounds(z.transitions, t, true);
    LocalSegment(z, t);
    LocalSeconds(z, t);
    var u := t + SetBack(z, k);
    LastNotAfterIs(z.transitions, u, true, k);
    SameClock(z, t, u);
    LocalIsDst(z, t);
    LocalIsDst(z, u);
  }

  lemma RoundTripAt(z: Data, t: int)
    requires ValidData(z) && WellSeparated(z) && OnlyDstEndsSetBack(z) && Datable(z, t)
    ensures InstantOf(z, LocalOf(z, t)) == t
  {
    hide LocalOf, InstantOf, LastNotAfter, WellSeparated;
    var k := SegmentAt(z, t) + 1;
    LastNotAfterBounds(z.transitions, t, true);
    LocalSegment(z, t);
    if k < |z.transitions| && t >= z.transitions[k].gmttime - SetBack(z, k) {
      RepeatedInstant(z, t, k);
      assert EndsDst(z, k);
    } else {
      UnrepeatedRoundTrip(z, t);
    }
  }

  ghost predicate RoundTripsEverywhere(z: Data)
    requires z.localtimes != []
  {
    forall t | Datable(z, t) :: InstantOf(z, LocalOf(z, t)) == t
  }

  /** The second before transition `k`, which a set-back repeats. */
  lemma LastSecondBefore(z: Data, k: nat) returns (t: int)
    requires ValidData(z) && WellSeparated(z) && k < |z.transitions|
    ensures t == z.transitions[k].gmttime - 1 && SegmentAt(z, t) == k - 1 && Datable(z, t)
  {
    t := z.transitions[k].gmttime - 1;
    LastNotAfterIs(z.transitions, t, true, k - 1);
    FirstSecondIsEarly();
  }

  lemma FirstSecondIsEarly()
    ensures FIRST_SECOND < -0x1_0000_0001
  {
  }

  /**
   * Going to local time and back is the identity on every datable instant exactly when the clock is
   * never set back other than by the hour that ends daylight saving.
   */
  lemma LocalRoundTripExactly(z: Data)
    requires ValidData(z) && WellSeparated(z)
    ensures RoundTripsEverywhere(z) <==> OnlyDstEndsSetBack(z)
  {
    hide LocalOf, InstantOf, LastNotAfter;
    if OnlyDstEndsSetBack(z) {
      forall t | Datable(z, t)
        ensures InstantOf(z, LocalOf(z, t)) == t
      {
        RoundTripAt(z, t);
      }
    } else {
      var k: nat :| k < |z.transitions| && !EndsDst(z, k);
      var t := LastSecondBefore(z, k);
      RepeatedInstant(z, t, k);
    }
  }

  /** Standard time at one offset and daylight saving an hour ahead of it, changes over an hour apart. */
  ghost predicate DaylightSavingZone(z: Data, standard: int) {
    && ValidData(z)
    && (forall k | 0 <= k < |z.localtimes| ::
          z.localtimes[k] == Localtime(standard, false) || z.localtimes[k] == Localtime(standard + 3600, true))
    && (forall i, j | 0 <= i < j < |z.transitions| ::
          z.transitions[i].gmttime + 3600 < z.transitions[j].gmttime)
  }

  /** Every ordinary daylight saving zone round-trips at every datable instant, the repeated hour included. */
  lemma DaylightSavingRoundTrip(z: Data, standard: int, t: int)
    requires DaylightSavingZone(z, standard) && Datable(z, t)
    ensures InstantOf(z, LocalOf(z, t)) == t
  {
    hide LocalOf, InstantOf, LastNotAfter;
    DaylightSavingSeparated(z, standard);
    RoundTripAt(z, t);
  }

  lemma DaylightSavingAscending(z: Data, standard: int, i: nat, j: nat)
    requires DaylightSavingZone(z, standard) && i < j < |z.transitions|
    ensures z.transitions[i].gmttime < z.transitions[j].gmttime
    ensures z.transitions[i].localtime < z.transitions[j].localtime
    ensures SetBack(z, i) <= z.transitions[j].gmttime - z.transitions[i].gmttime
    ensures SetBack(z, i) <= z.transitions[j].localtime - z.transitions[i].localtime
  {
  }

  lemma DaylightSavingSeparated(z: Data, standard: int)
    requires DaylightSavingZone(z, standard)
    ensures WellSeparated(z) && OnlyDstEndsSetBack(z)
  {
    assert z.localtimes != [];
    hide ValidData, TypeAt, DaylightSavingZone, SetBack;
    var ts := z.transitions;
    forall i: nat, j: nat | i < j < |ts|
      ensures ts[i].gmttime < ts[j].gmttime && ts[i].localtime < ts[j].localtime
      ensures SetBack(z, i) <= ts[j].gmttime - ts[i].gmttime
      ensures SetBack(z, i) <= ts[j].localtime - ts[i].localtime
    {
      DaylightSavingAscending(z, standard, i, j);
    }
    forall k: nat | k < |ts|
      ensures EndsDst(z, k)
    {
      DaylightSavingSetBack(z, standard, k);
    }
  }

  lemma DaylightSavingSetBack(z: Data, standard: int, k: nat)
    requires DaylightSavingZone(z, standard)
    ensures EndsDst(z, k)
  {
  }

  /** A zone that moves its standard time half an hour west: the repeated half hour maps to the wrong instant. */
  lemma StandardTimeMovedBack()
    ensures var z := Data([Transition(0, -1800, 1)], [Localtime(0, false), Localtime(-1800, false)]);
            ValidData(z) && WellSeparated(z) && Datable(z, -1) && InstantOf(z, LocalOf(z, -1)) == 1799
  {
    var z := Data([Transition(0, -1800, 1)], [Localtime(0, false), Localtime(-1800, false)]);
    hide LocalOf, InstantOf, LastNotAfter;
    var t := LastSecondBefore(z, 0);
    RepeatedInstant(z, t, 0);
  }
}
