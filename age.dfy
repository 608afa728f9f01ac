/**
 * `calculateAge` from the admin portal's context (admin/src/context/AppContext.jsx): a
 * patient's age in completed years from a date of birth, as the doctor's chat header shows it.
 */
module AdminAppContext {

  /** A calendar day: `getFullYear()`, `getMonth()` and `getDate()`. */
  datatype Day = Day(year: int, month: int, date: int)

  /**
   * The `dob` argument: missing or empty (`!dob`), a string `new Date` cannot parse (an
   * Invalid Date, whose fields are all `NaN`), or a day.
   */
  datatype Dob = Missing | Unparsable | Born(day: Day)

  /** The result: the string `'N/A'`, the number `NaN`, or a whole number of years. */
  datatype Age = NotAvailable | NotANumber | Years(years: int)

  /** `a` falls on or before `b` in the calendar. */
  predicate OnOrBefore(a: Day, b: Day) {
    a.year < b.year
    || (a.year == b.year && a.month < b.month)
    || (a.year == b.year && a.month == b.month && a.date <= b.date)
  }

  /** The `n`-th anniversary of a day. */
  function Anniversary(d: Day, n: int): Day {
    Day(d.year + n, d.month, d.date)
  }

  /**
   * The year difference, less one when this year's birthday is still ahead. With an Invalid
   * Date every comparison with `NaN` is false, so nothing throws and the answer is `NaN`.
   */
  function CalculateAge(dob: Dob, today: Day): (r: Age)
    ensures dob.Missing? <==> r == NotAvailable
    ensures dob.Unparsable? <==> r == NotANumber
    ensures dob.Born? ==> r.Years?
  {
    match dob
    case Missing => NotAvailable
    case Unparsable => NotANumber
    case Born(b) =>
      var age := today.year - b.year;
      var monthDifference := today.month - b.month;
      if monthDifference < 0 || (monthDifference == 0 && today.date < b.date) then Years(age - 1) else Years(age)
  }

  /** The age is the number of anniversaries of the birth day that have come: the last one is past, the next one is not. */
  lemma AgeIsCompletedYears(b: Day, today: Day)
    ensures var n := CalculateAge(Born(b), today).years;
      OnOrBefore(Anniversary(b, n), today) && !OnOrBefore(Anniversary(b, n + 1), today)
  {
  }

  /** Only one number of years fits that description, so the age is determined by it. */
  lemma CompletedYearsUnique(b: Day, today: Day, n: int)
    requires OnOrBefore(Anniversary(b, n), today) && !OnOrBefore(Anniversary(b, n + 1), today)
    ensures CalculateAge(Born(b), today) == Years(n)
  {
    AgeIsCompletedYears(b, today);
  }

  /** On the birthday itself the new year already counts; the day before, it does not yet. */
  lemma BirthdayCounts(b: Day, year: int)
    ensures CalculateAge(Born(b), Day(year, b.month, b.date)) == Years(year - b.year)
    ensures CalculateAge(Born(b), Day(year, b.month, b.date - 1)) == Years(year - b.year - 1)
  {
  }
}
