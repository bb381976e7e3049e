/** `Mensaplan.get_weekdays`: the five working days of a numbered week of
    the current year, by the formula the program uses. */
module Weeks {
  import opened Wrappers
  import opened Errors
  import opened Calendar

  /** `today.year`. */
  function YearOf(today: Date): (y: int)
    ensures 1 <= y <= MAX_YEAR
  {
    FromOrdinal(today).year
  }

  /** The ordinal of `date(year, 1, 1)`. */
  function NewYear(year: int): (r: int)
    requires 1 <= year <= MAX_YEAR
    ensures 1 <= r <= MAX_ORDINAL
  {
    FromToOrdinal(Ymd(year, 1, 1));
    ToOrdinal(Ymd(year, 1, 1))
  }

  /** `NewYear` is the ordinal of 1 January and no other day. */
  lemma NewYearDate(year: int)
    requires 1 <= year <= MAX_YEAR
    ensures FromOrdinal(NewYear(year)) == Ymd(year, 1, 1)
  {
    FromToOrdinal(Ymd(year, 1, 1));
  }

  /** `first_day_of_year + timedelta(weeks=week - 1, days=-first_day_of_year.weekday())`
      for the 1 January with ordinal `jan1`, before the range check of the
      addition. */
  function FirstMonday(jan1: int, week: int): int {
    jan1 - DayOfWeek(jan1) + 7 * (week - 1)
  }

  /** `get_weekdays(week)` on the day `today`: Monday to Friday of week
      `week` counted from the week holding 1 January of today's year. A date
      outside 0001-01-01 .. 9999-12-31 raises OverflowError. */
  function GetWeekdays(today: Date, week: int): (r: Result<seq<Date>, Error>)
    ensures r.Failure? <==>
      var m := FirstMonday(NewYear(YearOf(today)), week);
      m < 1 || m + 4 > MAX_ORDINAL
    ensures r.Failure? ==> r.error == DateOutOfRange
    ensures r.Success? ==> |r.value| == 5
    ensures r.Success? ==> r.value[0] as int == FirstMonday(NewYear(YearOf(today)), week)
    ensures r.Success? ==> forall i :: 1 <= i < 5 ==> r.value[i] as int == r.value[i - 1] as int + 1
  {
    var m := FirstMonday(NewYear(YearOf(today)), week);
    if m < 1 || m + 4 > MAX_ORDINAL then Failure(DateOutOfRange)
    else Success([m, m + 1, m + 2, m + 3, m + 4])
  }

  /** The formula lands on a Monday, whatever the week number. */
  lemma FirstMondayIsMonday(jan1: int, week: int)
    ensures DayOfWeek(FirstMonday(jan1, week)) == 0
  {
  }

  /** The five dates are a Monday, Tuesday, Wednesday, Thursday and Friday,
      in that order. */
  lemma WeekdaysMondayToFriday(today: Date, week: int)
    requires GetWeekdays(today, week).Success?
    ensures forall i :: 0 <= i < 5 ==> DayOfWeek(GetWeekdays(today, week).value[i]) == i
  {
    var jan1 := NewYear(YearOf(today));
    var m := FirstMonday(jan1, week);
    var days := GetWeekdays(today, week).value;
    assert days == [m, m + 1, m + 2, m + 3, m + 4];
    FirstMondayIsMonday(jan1, week);
    WorkingDays(m);
  }

  lemma WorkingDays(m: int)
    requires DayOfWeek(m) == 0
    ensures DayOfWeek(m + 1) == 1 && DayOfWeek(m + 2) == 2 && DayOfWeek(m + 3) == 3
      && DayOfWeek(m + 4) == 4
  {
  }

  /** Week 1 is the Monday-to-Sunday week that holds 1 January; each
      following number is seven days later. */
  lemma WeekOneHoldsNewYear(jan1: int)
    ensures FirstMonday(jan1, 1) <= jan1 < FirstMonday(jan1, 1) + 7
  {
  }

  lemma NextWeek(jan1: int, week: int)
    ensures FirstMonday(jan1, week + 1) == FirstMonday(jan1, week) + 7
  {
  }

  /** The week `get_weekdays` returns, stated on its result: its Monday is
      the Monday of the week holding the day `7 * (week - 1)` days after
      1 January of today's year (so week 1 holds 1 January), and the next
      week number starts seven days later. */
  lemma GetWeekdaysWeek(today: Date, week: int)
    requires GetWeekdays(today, week).Success?
    ensures var ds := GetWeekdays(today, week).value;
      var jan1 := NewYear(YearOf(today));
      && FromOrdinal(jan1) == Ymd(YearOf(today), 1, 1)
      && DayOfWeek(ds[0]) == 0
      && ds[0] as int <= jan1 + 7 * (week - 1) < ds[0] as int + 7
    ensures GetWeekdays(today, week + 1).Success? ==>
      GetWeekdays(today, week + 1).value[0] as int == GetWeekdays(today, week).value[0] as int + 7
  {
    var jan1 := NewYear(YearOf(today));
    NewYearDate(YearOf(today));
    FirstMondayIsMonday(jan1, week);
    WeekOneHoldsNewYear(jan1);
    NextWeek(jan1, week);
  }

  /** The Monday of week `week` as ISO 8601 numbers weeks (clause 4.1.4 of
      ISO 8601:2004): week 1 is the week holding 4 January. */
  function IsoMonday(jan1: int, week: int): int {
    var jan4 := jan1 + 3;
    jan4 - DayOfWeek(jan4) + 7 * (week - 1)
  }

  /** The program's week numbers agree with ISO 8601 exactly in the years
      whose 1 January is a Monday to Thursday; in the other years they run
      one week behind. */
  lemma IsoAgreement(jan1: int, week: int)
    ensures FirstMonday(jan1, week) == IsoMonday(jan1, week) <==> DayOfWeek(jan1) <= 3
    ensures DayOfWeek(jan1) > 3 ==> FirstMonday(jan1, week) == IsoMonday(jan1, week) - 7
  {
  }
}
