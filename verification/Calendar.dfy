/** Python's `datetime` in UTC: the fields, the instant they name, and the `isoformat()` text. */
module Calendar {
  import opened Wrappers

  datatype DateTime = DateTime(year: nat, month: nat, day: nat, hour: nat, minute: nat, second: nat, us: nat)

  const MICROS_A_SECOND := 1_000_000
  const MICROS_A_DAY := 86_400 * MICROS_A_SECOND
  const MAX_YEAR := 9999

  predicate Leap(y: nat) {
    y % 4 == 0 && (y % 100 != 0 || y % 400 == 0)
  }

  function LeapDay(y: nat): nat {
    if Leap(y) then 1 else 0
  }

  function DaysIn(y: nat, m: nat): (d: nat)
    ensures d <= 31
  {
    if m == 2 then 28 + LeapDay(y) else if m in [4, 6, 9, 11] then 30 else 31
  }

  predicate Valid(d: DateTime) {
    && 1 <= d.year <= MAX_YEAR && 1 <= d.month <= 12 && 1 <= d.day <= DaysIn(d.year, d.month)
    && d.hour < 24 && d.minute < 60 && d.second < 60 && d.us < MICROS_A_SECOND
  }

  // ------------------------------------------------------------------ instants

  /** How many years before `y` are multiples of `k`. */
  function Multiples(y: nat, k: nat): int
    requires y >= 1 && k >= 1
  {
    (y - 1) / k
  }

  /** Days before the first of January of `y`, counted from year 1. */
  function DaysBeforeYear(y: nat): int
    requires y >= 1
  {
    365 * (y - 1) + Multiples(y, 4) - Multiples(y, 100) + Multiples(y, 400)
  }

  function DaysBeforeMonth(y: nat, m: nat): nat {
    var before := [0, 0, 31, 59, 90, 120, 151, 181, 212, 243, 273, 304, 334, 365];
    if m < |before| then before[m] + (if m > 2 then LeapDay(y) else 0) else 0
  }

  function Ordinal(d: DateTime): int
    requires Valid(d)
  {
    DaysBeforeYear(d.year) + DaysBeforeMonth(d.year, d.month) + d.day
  }

  function TimeOfDay(d: DateTime): (t: nat)
    requires Valid(d)
    ensures t < MICROS_A_DAY
  {
    ((d.hour * 60 + d.minute) * 60 + d.second) * MICROS_A_SECOND + d.us
  }

  /** Microseconds since the day before 1 January of year 1. */
  function Instant(d: DateTime): int
    requires Valid(d)
  {
    Ordinal(d) * MICROS_A_DAY + TimeOfDay(d)
  }

  lemma YearLength(y: nat)
    requires y >= 1
    ensures DaysBeforeYear(y + 1) == DaysBeforeYear(y) + 365 + LeapDay(y)
  {
    hide Multiples;
    StepDivides(y, 4);
    StepDivides(y, 100);
    StepDivides(y, 400);
    CenturyYears(y);
  }

  lemma CenturyYears(y: nat)
    ensures (y % 400 == 0 ==> y % 100 == 0) && (y % 100 == 0 ==> y % 4 == 0)
  {
    if y % 400 == 0 { assert y == 100 * (4 * (y / 400)); }
    if y % 100 == 0 { assert y == 4 * (25 * (y / 100)); }
  }

  lemma StepDivides(y: nat, k: nat)
    requires y >= 1 && k in {4, 100, 400}
    ensures Multiples(y + 1, k) == Multiples(y, k) + (if y % k == 0 then 1 else 0)
  {
  }

  lemma {:induction false} YearsInOrder(x: nat, y: nat)
    requires 1 <= x <= y
    ensures DaysBeforeYear(x) + 365 * (y - x) <= DaysBeforeYear(y)
    decreases y
  {
    if x < y {
      YearsInOrder(x, y - 1);
      YearLength(y - 1);
    }
  }

  lemma MonthLength(y: nat, m: nat)
    requires 1 <= m <= 12
    ensures DaysBeforeMonth(y, m + 1) == DaysBeforeMonth(y, m) + DaysIn(y, m)
  {
    assert m in {1, 2, 3, 4, 5, 6, 7, 8, 9, 10, 11, 12};
  }

  lemma {:induction false} MonthsInOrder(y: nat, m: nat, n: nat)
    requires 1 <= m <= n <= 13
    ensures DaysBeforeMonth(y, m) <= DaysBeforeMonth(y, n)
    decreases n
  {
    hide DaysBeforeMonth;
    if m < n {
      MonthsInOrder(y, m, n - 1);
      MonthLength(y, n - 1);
    }
  }

  lemma DayFitsTheYear(d: DateTime)
    requires Valid(d)
    ensures DaysBeforeMonth(d.year, d.month) + d.day <= 365 + LeapDay(d.year)
  {
    assert DaysBeforeMonth(d.year, 13) == 365 + LeapDay(d.year);
    MonthLength(d.year, d.month);
    MonthsInOrder(d.year, d.month + 1, 13);
  }

  /** Field by field, most significant first. */
  predicate DateBefore(x: DateTime, y: DateTime) {
    x.year < y.year || (x.year == y.year && (x.month < y.month || (x.month == y.month && x.day < y.day)))
  }

  predicate SameDate(x: DateTime, y: DateTime) {
    x.year == y.year && x.month == y.month && x.day == y.day
  }

  predicate TimeBefore(x: DateTime, y: DateTime) {
    x.hour < y.hour || (x.hour == y.hour && (x.minute < y.minute || (x.minute == y.minute &&
      (x.second < y.second || (x.second == y.second && x.us < y.us)))))
  }

  predicate Before(x: DateTime, y: DateTime) {
    DateBefore(x, y) || (SameDate(x, y) && TimeBefore(x, y))
  }

  lemma LaterDateLaterOrdinal(x: DateTime, y: DateTime)
    requires Valid(x) && Valid(y) && DateBefore(x, y)
    ensures Ordinal(x) < Ordinal(y)
  {
    hide DaysBeforeYear, DaysBeforeMonth;
    if x.year < y.year {
      DayFitsTheYear(x);
      YearLength(x.year);
      YearsInOrder(x.year + 1, y.year);
    } else if x.month < y.month {
      MonthLength(x.year, x.month);
      MonthsInOrder(x.year, x.month + 1, y.month);
    }
  }

  lemma LaterTimeLaterMicros(x: DateTime, y: DateTime)
    requires Valid(x) && Valid(y)
    ensures TimeBefore(x, y) ==> TimeOfDay(x) < TimeOfDay(y)
  {
  }

  lemma SameDateSameOrdinal(x: DateTime, y: DateTime)
    requires Valid(x) && Valid(y) && SameDate(x, y)
    ensures Ordinal(x) == Ordinal(y)
  {
  }

  lemma InstantOfBefore(x: DateTime, y: DateTime)
    requires Valid(x) && Valid(y) && Before(x, y)
    ensures Instant(x) < Instant(y)
  {
    hide Ordinal, TimeOfDay, DateBefore, SameDate, TimeBefore;
    if DateBefore(x, y) {
      LaterDateLaterOrdinal(x, y);
    } else {
      SameDateSameOrdinal(x, y);
      LaterTimeLaterMicros(x, y);
    }
  }

  /** Comparing the fields is comparing the instants, and one instant has one set of fields. */
  lemma FieldsOrderInstants(x: DateTime, y: DateTime)
    requires Valid(x) && Valid(y)
    ensures Before(x, y) <==> Instant(x) < Instant(y)
    ensures x == y <==> Instant(x) == Instant(y)
  {
    hide Instant;
    if Before(x, y) { InstantOfBefore(x, y); }
    if Before(y, x) { InstantOfBefore(y, x); }
  }

  lemma FirstDays(x: nat, y: nat)
    ensures DaysBeforeMonth(x, 1) == DaysBeforeMonth(y, 1) == 0
    ensures DaysBeforeMonth(x, 13) == 365 + LeapDay(x)
  {
  }

  /** The clock counts on from midnight. */
  lemma ClockStartsAtMidnight(d: DateTime)
    requires Valid(d)
    ensures Instant(d) == Instant(DateTime(d.year, d.month, d.day, 0, 0, 0, 0))
                          + 3_600_000_000 * d.hour + 60_000_000 * d.minute + 1_000_000 * d.second + d.us
  {
    hide DaysBeforeYear, DaysBeforeMonth, DaysIn;
    var start := DateTime(d.year, d.month, d.day, 0, 0, 0, 0);
    assert Ordinal(start) == Ordinal(d) && TimeOfDay(start) == 0;
    ClockOf(d);
  }

  lemma ClockOf(d: DateTime)
    requires Valid(d)
    ensures TimeOfDay(d) == 3_600_000_000 * d.hour + 60_000_000 * d.minute + 1_000_000 * d.second + d.us
  {
    hide DaysIn;
  }

  /** At one time of day, each date is a day after the one before it. */
  lemma DaysFollow(d: DateTime, e: DateTime)
    requires Valid(d) && Valid(e) && TimeOfDay(d) == TimeOfDay(e)
    requires var last := if d.month == 4 || d.month == 6 || d.month == 9 || d.month == 11 then 30
                         else if d.month != 2 then 31
                         else if d.year % 4 == 0 && (d.year % 100 != 0 || d.year % 400 == 0) then 29 else 28;
             (e.year, e.month, e.day) ==
               if d.day != last then (d.year, d.month, d.day + 1)
               else if d.month != 12 then (d.year, d.month + 1, 1) else (d.year + 1, 1, 1)
    ensures Instant(e) == Instant(d) + 86_400_000_000
  {
    hide TimeOfDay, DaysBeforeMonth;
    MonthLength(d.year, d.month);
    YearLength(d.year);
    FirstDays(d.year, e.year);
  }

  // ------------------------------------------------------------------ back from an instant

  /** The year, from `y` on, that day `n` falls in. */
  function YearOf(n: int, y: nat): (r: nat)
    requires 1 <= y <= MAX_YEAR && DaysBeforeYear(y) < n <= DaysBeforeYear(MAX_YEAR + 1)
    ensures y <= r <= MAX_YEAR && DaysBeforeYear(r) < n <= DaysBeforeYear(r + 1)
    decreases MAX_YEAR - y
  {
    if n <= DaysBeforeYear(y + 1) then y else YearOf(n, y + 1)
  }

  function MonthOf(y: nat, n: int, m: nat): (r: nat)
    requires 1 <= m <= 12 && DaysBeforeMonth(y, m) < n <= 365 + LeapDay(y)
    ensures m <= r <= 12 && DaysBeforeMonth(y, r) < n <= DaysBeforeMonth(y, r) + DaysIn(y, r)
    decreases 12 - m
  {
    MonthLength(y, m);
    if n <= DaysBeforeMonth(y, m) + DaysIn(y, m) then m else MonthOf(y, n, m + 1)
  }

  const FIRST_INSTANT := MICROS_A_DAY
  const END_INSTANT := (365 * 9999 + 2424 + 1) * MICROS_A_DAY

  /** The first instant of day `n`. */
  function Midnight(n: int): (r: DateTime)
    requires 1 <= n <= DaysBeforeYear(MAX_YEAR + 1)
    ensures Valid(r) && Ordinal(r) == n
  {
    var y := YearOf(n, 1);
    YearLength(y);
    var m := MonthOf(y, n - DaysBeforeYear(y), 1);
    DateTime(y, m, n - DaysBeforeYear(y) - DaysBeforeMonth(y, m), 0, 0, 0, 0)
  }

  function AtTime(d: DateTime, micros: nat): (r: DateTime)
    requires Valid(d) && micros < MICROS_A_DAY
    ensures Valid(r) && SameDate(d, r) && TimeOfDay(r) == micros
  {
    var seconds := micros / MICROS_A_SECOND;
    d.(hour := seconds / 3600, minute := seconds / 60 % 60, second := seconds % 60, us := micros % MICROS_A_SECOND)
  }

  lemma DayOfInstant(t: int)
    requires FIRST_INSTANT <= t < END_INSTANT
    ensures 1 <= t / MICROS_A_DAY <= DaysBeforeYear(MAX_YEAR + 1)
    ensures 0 <= t % MICROS_A_DAY < MICROS_A_DAY && t == t / MICROS_A_DAY * MICROS_A_DAY + t % MICROS_A_DAY
  {
    assert DaysBeforeYear(MAX_YEAR + 1) == 365 * 9999 + 2424;
  }

  /** The date and time at an instant; outside years 1 to 9999 the source raises OverflowError. */
  function FromInstant(t: int): (r: Option<DateTime>)
    ensures r.Some? <==> FIRST_INSTANT <= t < END_INSTANT
    ensures r.Some? ==> Valid(r.value) && Instant(r.value) == t
  {
    hide Ordinal, TimeOfDay, Valid, Midnight, AtTime;
    if !(FIRST_INSTANT <= t < END_INSTANT) then None
    else
      DayOfInstant(t);
      var d := Midnight(t / MICROS_A_DAY);
      var r := AtTime(d, t % MICROS_A_DAY);
      SameDateSameOrdinal(d, r);
      Some(r)
  }

  /** Every date and time is the one at its own instant. */
  lemma FromInstantOfInstant(d: DateTime)
    requires Valid(d)
    ensures FromInstant(Instant(d)) == Some(d)
  {
    hide Instant, FromInstant, YearOf, MonthOf;
    InstantInRange(d);
    FieldsOrderInstants(FromInstant(Instant(d)).value, d);
  }

  lemma OrdinalInRange(d: DateTime)
    requires Valid(d)
    ensures 1 <= Ordinal(d) <= DaysBeforeYear(MAX_YEAR + 1)
  {
    hide DaysBeforeMonth;
    DayFitsTheYear(d);
    YearLength(d.year);
    YearsInOrder(1, d.year);
    YearsInOrder(d.year + 1, MAX_YEAR + 1);
  }

  lemma InstantInRange(d: DateTime)
    requires Valid(d)
    ensures FIRST_INSTANT <= Instant(d) < END_INSTANT
  {
    hide Ordinal, TimeOfDay;
    OrdinalInRange(d);
  }
}
