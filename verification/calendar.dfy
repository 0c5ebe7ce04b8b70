/** The calendar values the script reads from `datetime.date.today()` and
    `datetime.datetime.now()`, with the ranges Python's `datetime` enforces. */
module Calendar {

  datatype Date = Date(year: nat, month: nat, day: nat)

  datatype DateTime = DateTime(year: nat, month: nat, day: nat, hour: nat, minute: nat, second: nat)

  const MinYear: nat := 1
  const MaxYear: nat := 9999

  predicate IsLeapYear(y: nat) { y % 4 == 0 && (y % 100 != 0 || y % 400 == 0) }

  function DaysInMonth(y: nat, m: nat): nat
    requires 1 <= m <= 12
  {
    if m == 2 then (if IsLeapYear(y) then 29 else 28)
    else if m == 4 || m == 6 || m == 9 || m == 11 then 30
    else 31
  }

  /** Every `datetime.date` value satisfies this. */
  predicate ValidDate(d: Date)
  {
    MinYear <= d.year <= MaxYear && 1 <= d.month <= 12 && 1 <= d.day <= DaysInMonth(d.year, d.month)
  }

  function DateOf(t: DateTime): Date { Date(t.year, t.month, t.day) }

  /** Every `datetime.datetime` value satisfies this (seconds stop at 59). */
  predicate ValidDateTime(t: DateTime)
  {
    ValidDate(DateOf(t)) && t.hour < 24 && t.minute < 60 && t.second < 60
  }
}
