# Age calculator — Dafny model

This project models the logic of the `AgeCalculator` form component. The
component reads a birth date from three text fields (day, month, year),
validates each field, builds the birth date with the platform `Date`
constructor, and rejects a birth date in the future. Otherwise it shows the
age as years, months and days. It gets these by subtracting the date fields
and applying two borrows.

The project has three modules:

- `Wrappers` defines `Option`. It stands for a parsed field (`None` where
  `parseInt` gives NaN) and for the nullable state values.
- `Calendar` holds the calendar behaviour the component takes from `Date`.
  This covers Gregorian leap years and month lengths. It also covers the
  rollover that `new Date(year, monthIndex, date)` performs under section
  21.4.2.1 of ECMA-262 (MakeDay). An overflowing day runs into the next
  month, so 31/2/2023 becomes 3 March 2023. Day 0 is the last day of the
  previous month. A year in [0, 99] is taken as 19xx. Months are 1-based
  here, while `getMonth()` is 0-based.
- `AgeCalc` holds the validation predicates, the birth-date construction,
  the `Diff` difference and the lemmas about it. It also holds the
  `AgeCalculator` class, whose fields are the component's `age`,
  `dayError`, `monthError` and `yearError` state.

What the model shows about the difference:

- `years` and `months` together count the whole months elapsed, split by 12.
  So `months` is in [0, 11], and `years` counts completed birthdays.
- `days` is today's day minus the birth day, plus the length of the month
  before today's month when that difference is negative. It lies in
  [-2, 30]. One might expect days ≥ 0, but the code does not guarantee it.
  Days go below zero exactly when the birth day exceeds today's day plus that
  month's length. For example, born 31 January 2023 with today 1 March 2023
  gives 0 years, 1 month and -2 days (`NegativeDaysExample`).
- The difference adds back to today. Advance the birth date by
  12 × years + months months, then by `days` days, with the same `Date`
  rollover, and the result is today. This holds in the negative case too:
  31 January plus one month rolls over to 3 March, and −2 days gives 1 March.

## Model

| member | source | states |
|---|---|---|
| `Calendar.DaysInMonth` | src/components/AgeCalculator.tsx:80 | a month has 28 to 31 days; it has 29 exactly for February of a Gregorian leap year; January and December have 31 |
| `Calendar.RollDays` | src/components/AgeCalculator.tsx:62-66 | the date-constructor day rollover always yields a real calendar date, and keeps a day that lies within the month as is |
| `Calendar.RollDaysDirection` | src/components/AgeCalculator.tsx:62-66 | the rollover moves in the direction of the overflow: a day beyond the month lands after its last day; a day below 1 lands before its first day, and only then |
| `Calendar.MonthCarry` | src/components/AgeCalculator.tsx:62-66 | the years a month index carries are its floor quotient by 12, so the remaining month index is in [0, 11] |
| `Calendar.NewDate` | src/components/AgeCalculator.tsx:62-66 | `new Date(year, monthIndex, date)` always denotes a real calendar date, and the one given when that date exists |
| `Calendar.NewDateOfFields` | src/components/AgeCalculator.tsx:62-66 | for a day in [1, 31] and a month in [1, 12], the constructed date is the given one; when the day exceeds the month's length it is instead day (day − that length) of the next month of the same year; December never overflows |
| `Calendar.LastDayOfPreviousMonth` | src/components/AgeCalculator.tsx:80 | `new Date(y, monthIndex, 0)` is the last day of the month before; for January it is 31 December of the previous year |
| `AgeCalc.BirthDate` | src/components/AgeCalculator.tsx:62-66 | the birth date built from validated fields is a real date in the entered year, never before 1 January 1900, and equal to the entered date or its rollover into the next month |
| `AgeCalc.PrevMonthLength` | src/components/AgeCalculator.tsx:80 | the day borrow is between 28 and 31; it is 31 when today is in January; it is the length of the month before today's month |
| `AgeCalc.Diff` | src/components/AgeCalculator.tsx:74-86 | years and months are the quotient and remainder by 12 of the whole months elapsed; months in [0, 11]; days is the plain day difference when no borrow is needed, and that difference plus the previous month's length when it is; days in [-2, 30]; days is negative iff the birth day exceeds today's day plus the previous month's length |
| `AgeCalc.DiffAddsBackToToday` | src/components/AgeCalculator.tsx:62-86 | the birth date advanced by 12 × years + months months and then by days days, with the `Date` rollover, is today, for all real birth and today dates whose years lie outside [0, 99] |
| `AgeCalc.YearsCountBirthdays` | src/components/AgeCalculator.tsx:74-86 | years equals today's year minus the birth year, less one exactly when (today's month, day) is before (birth month, day) |
| `AgeCalc.NotAfterGivesNonNegativeYears` | src/components/AgeCalculator.tsx:68-86 | a birth date not after today gives years ≥ 0 |
| `AgeCalc.SameDayIsZero` | src/components/AgeCalculator.tsx:74-86 | a birth date equal to today gives 0 years, 0 months, 0 days |
| `AgeCalc.DaysNonNegativeWhenBirthDayFits` | src/components/AgeCalculator.tsx:76-81 | days ≥ 0 whenever the birth day is at most the length of the month before today's month |
| `AgeCalc.NegativeDaysExample` | src/components/AgeCalculator.tsx:76-81 | born 31 January 2023, today 1 March 2023: the result is 0 years, 1 month, -2 days |
| `AgeCalc.DoubleBorrowExample` | src/components/AgeCalculator.tsx:74-86 | born 15 March 2000, today 10 January 2024: both borrows apply and the result is 23 years, 9 months, 26 days |
| `AgeCalc.AgeCalculator.constructor` | src/components/AgeCalculator.tsx:12-19 | initially no age and no error is shown |
| `AgeCalc.AgeCalculator.ValidateInput` | src/components/AgeCalculator.tsx:21-53 | all three errors are cleared; each is then set iff its own field is missing or out of range (day [1, 31], month [1, 12], year [1900, current year]), independently of the others; the result is true iff all three pass, iff no error is set |
| `AgeCalc.AgeCalculator.CalculateAge` | src/components/AgeCalculator.tsx:55-89 | invalid input leaves the field errors and no age; a valid birth date after today sets the future-date year error and no age; otherwise the age is `Diff(birth, today)` with no errors, and then years ≥ 0, months in [0, 11], days in [-2, 30] |

## Left out

- The rendered markup, styling, icons, the input `onChange` handlers and the result message are presentation only.
- The text fields are not modelled. Each method takes the already-parsed values as `Option<int>`. `parseInt`'s handling of whitespace, signs, hexadecimal prefixes, trailing text and very long digit strings is not modelled.
- The clock is not read. Validation's current year and the calculation's today are separate parameters, as the two separate clock reads are. No relation between them is assumed.
- The `birthDate > today` time comparison is modelled on calendar dates. The birth date is at local midnight, so it is later than the current instant exactly when its calendar date is later. Time of day, time zones and daylight saving are not modelled.
- React's state setters are modelled as plain field assignments. Batching and re-rendering are framework behaviour. Within one call, the last assignment to a field is the one that shows.
- AgeCalc.DiffAddsBackToToday: stated only for years outside [0, 99]. For such years the `Date` constructor reads the year as 19xx, so the add-back would land in the wrong century. A validated birth year is at least 1900.
- `Calendar.NewDate` does not model the time-value range limit of ECMA-262 (dates beyond about 275,000 years give an invalid date). A validated year is at most the current year.
