// The parts of the `chrono` crate the firmware relies on: which dates and
// times its `_opt` constructors accept.  Both the decoder (src/dcf77.rs)
// and the word display (src/display.rs) use these.

module Chrono {
  predicate IsLeapYear(y: int)
  {
    y % 4 == 0 && (y % 100 != 0 || y % 400 == 0)
  }

  function DaysInMonth(y: int, m: nat): nat
    requires 1 <= m <= 12
  {
    if m == 2 then (if IsLeapYear(y) then 29 else 28)
    else if m == 4 || m == 6 || m == 9 || m == 11 then 30
    else 31
  }

  /** The dates `NaiveDate::from_ymd_opt` accepts (proleptic Gregorian). */
  predicate ValidDate(y: int, m: nat, d: nat)
  {
    1 <= m <= 12 && 1 <= d <= DaysInMonth(y, m)
  }

  /** The times `and_hms_opt` (and `NaiveTime::from_hms_opt`) accept: no
      leap second, so the second is below 60. */
  predicate ValidTime(h: nat, mi: nat, s: nat)
  {
    h < 24 && mi < 60 && s < 60
  }
}
