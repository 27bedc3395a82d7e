/**
 * The age calculator form: validation of the day, month and year fields,
 * construction of the birth date, rejection of a birth date in the future,
 * and the years/months/days difference with two borrow steps.
 *
 * The fields' text is given already parsed (None where it does not parse as
 * an integer); the clock is given as two parameters, the current year read
 * by validation and today's date read by the calculation.
 */
module AgeCalc {
  import opened Wrappers
  import opened Calendar

  /** The displayed result: years, months and days of age. */
  datatype Age = Age(years: int, months: int, days: int)

  const InvalidDayMessage := "Please enter a valid day."
  const InvalidMonthMessage := "Please enter a valid month."
  const InvalidYearMessage := "Please enter a valid year."
  const FutureBirthMessage := "Birthdate cannot be in the future."

  /** Earliest year the form accepts. */
  const MinYear := 1900

  predicate DayValid(day: Option<int>)
  {
    day.Some? && 1 <= day.value <= 31
  }

  predicate MonthValid(month: Option<int>)
  {
    month.Some? && 1 <= month.value <= 12
  }

  predicate YearValid(year: Option<int>, currentYear: int)
  {
    year.Some? && MinYear <= year.value <= currentYear
  }

  predicate InputValid(day: Option<int>, month: Option<int>, year: Option<int>, currentYear: int)
  {
    DayValid(day) && MonthValid(month) && YearValid(year, currentYear)
  }

  /**
   * The birth date built from validated fields. It is a real calendar date
   * in the entered year, in the entered month or (when the day overflows
   * the month) the next one, and never before 1 January 1900.
   */
  function BirthDate(day: Option<int>, month: Option<int>, year: Option<int>): (b: Date)
    requires DayValid(day) && MonthValid(month) && year.Some? && year.value >= MinYear
    ensures ValidDate(b) && b.year == year.value
    ensures day.value <= DaysInMonth(year.value, month.value) ==> b == Date(year.value, month.value, day.value)
    ensures day.value > DaysInMonth(year.value, month.value)
            ==> month.value < 12 && b == Date(year.value, month.value + 1, day.value - DaysInMonth(year.value, month.value))
    ensures !IsBefore(b, Date(MinYear, 1, 1))
  {
    NewDateOfFields(year.value, month.value, day.value);
    NewDate(year.value, month.value - 1, day.value)
  }

  /**
   * `new Date(today's year, today's month index, 0).getDate()`: the length
   * of the month before today's month.
   */
  function PrevMonthLength(today: Date): (n: int)
    requires ValidDate(today)
    ensures 28 <= n <= 31
    ensures today.month == 1 ==> n == 31
    ensures today.year == FullYear(today.year) ==>
              n == DaysInMonth(PrevMonth(today.year, today.month).0, PrevMonth(today.year, today.month).1)
  {
    LastDayOfPreviousMonth(today.year, today.month);
    NewDate(today.year, today.month - 1, 0).day
  }

  /**
   * Whole months from `birth` to `today`: the difference of the (year, month)
   * pairs, less one when today's day of the month is before the birth day.
   */
  function CompletedMonths(birth: Date, today: Date): int
  {
    12 * (today.year - birth.year) + (today.month - birth.month) - (if today.day < birth.day then 1 else 0)
  }

  /** True when (today.month, today.day) comes before (birth.month, birth.day): this year's birthday is still ahead. */
  predicate BirthdayAhead(birth: Date, today: Date)
  {
    today.month < birth.month || (today.month == birth.month && today.day < birth.day)
  }

  /**
   * The difference computed by field subtraction, with a day borrow of the
   * previous month's length and a month borrow of 12.
   * Years and months are the whole months elapsed, split as quotient and
   * remainder by 12. Days are the day difference when no borrow is needed;
   * they lie in [-2, 30] and are negative exactly when the birth day exceeds
   * today's day plus the previous month's length.
   */
  function Diff(birth: Date, today: Date): (r: Age)
    requires ValidDate(birth) && ValidDate(today)
    ensures r.years == CompletedMonths(birth, today) / 12
    ensures r.months == CompletedMonths(birth, today) % 12
    ensures 0 <= r.months <= 11
    ensures -2 <= r.days <= 30
    ensures today.day >= birth.day ==> r.days == today.day - birth.day
    ensures today.day < birth.day ==> r.days == today.day - birth.day + PrevMonthLength(today)
    ensures r.days < 0 <==> birth.day > today.day + PrevMonthLength(today)
  {
    var (years0, months0, days0) := (today.year - birth.year, today.month - birth.month, today.day - birth.day);
    var (months1, days1) := if days0 < 0 then (months0 - 1, days0 + PrevMonthLength(today)) else (months0, days0);
    var (years2, months2) := if months1 < 0 then (years0 - 1, months1 + 12) else (years0, months1);
    Age(years2, months2, days1)
  }

  /**
   * The years of the difference count completed birthdays: the difference
   * of the years, less one while this year's birthday is still ahead.
   */
  lemma YearsCountBirthdays(birth: Date, today: Date)
    requires ValidDate(birth) && ValidDate(today)
    ensures Diff(birth, today).years == today.year - birth.year - (if BirthdayAhead(birth, today) then 1 else 0)
  {
  }

  /** Years and months of the difference make up the whole months elapsed. */
  lemma DiffMonthsTotal(birth: Date, today: Date)
    requires ValidDate(birth) && ValidDate(today)
    ensures 12 * Diff(birth, today).years + Diff(birth, today).months == CompletedMonths(birth, today)
  {
  }

  /**
   * Advancing the birth date by the whole months elapsed puts its day into
   * today's month, or into the month before when today's day is earlier
   * than the birth day.
   */
  lemma AdvanceByCompletedMonths(birth: Date, today: Date, index: int)
    requires ValidDate(birth) && ValidDate(today) && FullYear(birth.year) == birth.year
    requires index == birth.month - 1 + CompletedMonths(birth, today)
    ensures today.day >= birth.day ==>
              NewDate(birth.year, index, birth.day) == RollDays(today.year, today.month, birth.day)
    ensures today.day < birth.day ==>
              NewDate(birth.year, index, birth.day)
              == RollDays(PrevMonth(today.year, today.month).0, PrevMonth(today.year, today.month).1, birth.day)
  {
    var k := today.year - birth.year;
    var j := today.month - 1 - (if today.day < birth.day then 1 else 0);
    assert index == 12 * k + j;
    CarryMonthIndex(birth.year, k, j, birth.day);
  }

  /**
   * Without a day borrow: the birth date advanced by the whole months
   * elapsed is the birth day of today's month, and today.day - birth.day
   * more days reach today.
   */
  lemma AddBackWithinMonth(birth: Date, today: Date, months: int, days: int)
    requires ValidDate(birth) && ValidDate(today)
    requires NewDate(birth.year, birth.month - 1 + months, birth.day) == RollDays(today.year, today.month, birth.day)
    requires today.day >= birth.day && days == today.day - birth.day
    ensures AddMonthsAndDays(birth, months, days) == today
  {
    var m := NewDate(birth.year, birth.month - 1 + months, birth.day);
    assert AddMonthsAndDays(birth, months, days) == AddDays(m, days);
    assert m == Date(today.year, today.month, birth.day);
  }

  /**
   * The day step of a borrow: day `bd` of the month before today's month
   * (rolled over into today's month when that month is shorter), advanced
   * by today.day - bd plus that month's length, is today.
   */
  lemma DaysFromPreviousMonth(today: Date, bd: int, m: Date, days: int)
    requires ValidDate(today) && today.day < bd <= 31
    requires m == RollDays(PrevMonth(today.year, today.month).0, PrevMonth(today.year, today.month).1, bd)
    requires days == today.day - bd + DaysInMonth(PrevMonth(today.year, today.month).0, PrevMonth(today.year, today.month).1)
    ensures ValidDate(m) && AddDays(m, days) == today
  {
    var prev := PrevMonth(today.year, today.month);
    var p := DaysInMonth(prev.0, prev.1);
    assert NextMonth(prev.0, prev.1) == (today.year, today.month);
    if bd <= p {
      assert m == Date(prev.0, prev.1, bd);
      assert RollDays(prev.0, prev.1, today.day + p) == RollDays(today.year, today.month, today.day);
    } else {
      assert RollDays(prev.0, prev.1, bd) == RollDays(today.year, today.month, bd - p);
      assert m == Date(today.year, today.month, bd - p);
    }
  }

  /**
   * With a day borrow: the birth date advanced by the whole months elapsed
   * falls in the month before today's month (or rolls into today's month),
   * and the borrowed days reach today.
   */
  lemma AddBackFromPreviousMonth(birth: Date, today: Date, months: int, days: int)
    requires ValidDate(birth) && ValidDate(today)
    requires NewDate(birth.year, birth.month - 1 + months, birth.day)
             == RollDays(PrevMonth(today.year, today.month).0, PrevMonth(today.year, today.month).1, birth.day)
    requires today.day < birth.day
    requires days == today.day - birth.day + DaysInMonth(PrevMonth(today.year, today.month).0, PrevMonth(today.year, today.month).1)
    ensures AddMonthsAndDays(birth, months, days) == today
  {
    var m := NewDate(birth.year, birth.month - 1 + months, birth.day);
    assert AddMonthsAndDays(birth, months, days) == AddDays(m, days);
    DaysFromPreviousMonth(today, birth.day, m, days);
  }

  /**
   * Adding the difference back onto the birth date lands on today, under
   * the same `Date` rollover the component relies on: advance the birth
   * date by 12 * years + months months, then by `days` days.
   */
  lemma DiffAddsBackToToday(birth: Date, today: Date)
    requires ValidDate(birth) && ValidDate(today)
    requires FullYear(birth.year) == birth.year && FullYear(today.year) == today.year
    ensures var a := Diff(birth, today);
            AddMonthsAndDays(birth, 12 * a.years + a.months, a.days) == today
  {
    var a := Diff(birth, today);
    var months := 12 * a.years + a.months;
    DiffMonthsTotal(birth, today);
    AdvanceByCompletedMonths(birth, today, birth.month - 1 + months);
    if today.day >= birth.day {
      AddBackWithinMonth(birth, today, months, a.days);
    } else {
      AddBackFromPreviousMonth(birth, today, months, a.days);
    }
  }

  /** A birth date that is not after today gives a non-negative number of years. */
  lemma NotAfterGivesNonNegativeYears(birth: Date, today: Date)
    requires ValidDate(birth) && ValidDate(today) && !IsBefore(today, birth)
    ensures Diff(birth, today).years >= 0
  {
    YearsCountBirthdays(birth, today);
  }

  /** Born today: zero years, zero months, zero days. */
  lemma SameDayIsZero(d: Date)
    requires ValidDate(d)
    ensures Diff(d, d) == Age(0, 0, 0)
  {
  }

  /** Days are non-negative whenever the birth day fits in the month before today's month. */
  lemma DaysNonNegativeWhenBirthDayFits(birth: Date, today: Date)
    requires ValidDate(birth) && ValidDate(today) && birth.day <= PrevMonthLength(today)
    ensures Diff(birth, today).days >= 0
  {
  }

  /** Born 31 January 2023, today 1 March 2023: one month and minus two days. */
  lemma NegativeDaysExample()
    ensures Diff(Date(2023, 1, 31), Date(2023, 3, 1)) == Age(0, 1, -2)
  {
    LastDayOfPreviousMonth(2023, 3);
  }

  /** Born 15 March 2000, today 10 January 2024: both borrows apply, the day borrow takes December's 31 days. */
  lemma DoubleBorrowExample()
    ensures Diff(Date(2000, 3, 15), Date(2024, 1, 10)) == Age(23, 9, 26)
  {
    LastDayOfPreviousMonth(2024, 1);
  }

  /** The component's state: the displayed age and the error shown under each field. */
  class AgeCalculator {
    var age: Option<Age>
    var dayError: Option<string>
    var monthError: Option<string>
    var yearError: Option<string>

    /** Nothing is displayed initially. */
    constructor ()
      ensures age == None && dayError == None && monthError == None && yearError == None
    {
      age := None;
      dayError := None;
      monthError := None;
      yearError := None;
    }

    /**
     * Clears the three errors, then checks each field on its own and sets
     * that field's error when it fails; reports whether all three passed.
     */
    method ValidateInput(day: Option<int>, month: Option<int>, year: Option<int>, currentYear: int)
      returns (isValid: bool)
      modifies this`dayError, this`monthError, this`yearError
      ensures dayError == if DayValid(day) then None else Some(InvalidDayMessage)
      ensures monthError == if MonthValid(month) then None else Some(InvalidMonthMessage)
      ensures yearError == if YearValid(year, currentYear) then None else Some(InvalidYearMessage)
      ensures isValid == InputValid(day, month, year, currentYear)
      ensures isValid <==> dayError == None && monthError == None && yearError == None
    {
      isValid := true;

      dayError := None;
      monthError := None;
      yearError := None;

      if day.None? || day.value < 1 || day.value > 31 {
        dayError := Some(InvalidDayMessage);
        isValid := false;
      }

      if month.None? || month.value < 1 || month.value > 12 {
        monthError := Some(InvalidMonthMessage);
        isValid := false;
      }

      if year.None? || year.value < MinYear || year.value > currentYear {
        yearError := Some(InvalidYearMessage);
        isValid := false;
      }
    }

    /**
     * Validates the fields; on failure clears the age. Otherwise builds the
     * birth date, rejects it when it is after today, and else displays the
     * difference from the birth date to today.
     */
    method CalculateAge(day: Option<int>, month: Option<int>, year: Option<int>, currentYear: int, today: Date)
      requires ValidDate(today)
      modifies this
      ensures dayError == if DayValid(day) then None else Some(InvalidDayMessage)
      ensures monthError == if MonthValid(month) then None else Some(InvalidMonthMessage)
      ensures !InputValid(day, month, year, currentYear) ==>
                age == None
                && yearError == (if YearValid(year, currentYear) then None else Some(InvalidYearMessage))
      ensures InputValid(day, month, year, currentYear) && IsBefore(today, BirthDate(day, month, year)) ==>
                age == None && yearError == Some(FutureBirthMessage)
      ensures InputValid(day, month, year, currentYear) && !IsBefore(today, BirthDate(day, month, year)) ==>
                age == Some(Diff(BirthDate(day, month, year), today)) && yearError == None
      ensures age.Some? ==>
                age.value.years >= 0 && 0 <= age.value.months <= 11 && -2 <= age.value.days <= 30
    {
      var ok := ValidateInput(day, month, year, currentYear);
      if !ok {
        age := None;
        return;
      }

      var birthDate := NewDate(year.value, month.value - 1, day.value);
      assert birthDate == BirthDate(day, month, year);

      if IsBefore(today, birthDate) {
        yearError := Some(FutureBirthMessage);
        age := None;
        return;
      }

      var years := today.year - birthDate.year;
      var months := today.month - birthDate.month;
      var days := today.day - birthDate.day;

      if days < 0 {
        months := months - 1;
        days := days + NewDate(today.year, today.month - 1, 0).day;
      }

      if months < 0 {
        years := years - 1;
        months := months + 12;
      }

      assert Age(years, months, days) == Diff(birthDate, today);
      NotAfterGivesNonNegativeYears(birthDate, today);
      age := Some(Age(years, months, days));
    }
  }

  /** Day empty, month 13, year 1899: all three errors are shown together and no age. */
  method ExampleAllFieldsInvalid()
  {
    var form := new AgeCalculator();
    form.CalculateAge(None, Some(13), Some(1899), 2024, Date(2024, 1, 10));
    assert form.dayError == Some(InvalidDayMessage);
    assert form.monthError == Some(InvalidMonthMessage);
    assert form.yearError == Some(InvalidYearMessage);
    assert form.age == None;
  }

  /** Day 32 of May 2000: only the day is reported. */
  method ExampleInvalidDayOnly()
  {
    var form := new AgeCalculator();
    form.CalculateAge(Some(32), Some(5), Some(2000), 2024, Date(2024, 1, 10));
    assert form.dayError == Some(InvalidDayMessage);
    assert form.monthError == None && form.yearError == None;
    assert form.age == None;
  }

  /** 31 February 2023 rolls over to 3 March 2023, one day after today: rejected as a future birth date. */
  method ExampleRolledOverIntoFuture()
  {
    var form := new AgeCalculator();
    assert DaysInMonth(2023, 2) == 28;
    assert BirthDate(Some(31), Some(2), Some(2023)) == Date(2023, 3, 3);
    form.CalculateAge(Some(31), Some(2), Some(2023), 2023, Date(2023, 3, 2));
    assert form.yearError == Some(FutureBirthMessage);
    assert form.age == None;
  }

  /** Born 15 March 2000, today 10 January 2024: 23 years, 9 months and 26 days. */
  method ExampleAge()
  {
    var form := new AgeCalculator();
    form.CalculateAge(Some(15), Some(3), Some(2000), 2024, Date(2024, 1, 10));
    DoubleBorrowExample();
    assert form.age == Some(Age(23, 9, 26));
  }
}
