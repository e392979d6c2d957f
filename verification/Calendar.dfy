/** The Gregorian calendar, time.Date's normalization, and julianDay (internal/bindings/funcs.go). */
module Calendar {

  datatype Date = Date(year: int, month: int, day: int)

  predicate IsLeap(y: int) { y % 4 == 0 && (y % 100 != 0 || y % 400 == 0) }

  function DaysIn(y: int, m: int): (days: int)
    requires 1 <= m <= 12
    ensures 28 <= days <= 31
  {
    if m == 2 then if IsLeap(y) then 29 else 28
    else if m == 4 || m == 6 || m == 9 || m == 11 then 30
    else 31
  }

  predicate IsDate(t: Date) { 1 <= t.month <= 12 && 1 <= t.day <= DaysIn(t.year, t.month) }

  /** The next day on the calendar. */
  function NextDay(t: Date): (next: Date)
    requires IsDate(t)
    ensures IsDate(next)
  {
    if t.day < DaysIn(t.year, t.month) then t.(day := t.day + 1)
    else if t.month < 12 then Date(t.year, t.month + 1, 1)
    else Date(t.year + 1, 1, 1)
  }

  function PreviousDay(t: Date): (previous: Date)
    requires IsDate(t)
    ensures IsDate(previous) && NextDay(previous) == t
  {
    if t.day > 1 then t.(day := t.day - 1)
    else if t.month > 1 then Date(t.year, t.month - 1, DaysIn(t.year, t.month - 1))
    else Date(t.year - 1, 12, 31)
  }

  predicate Before(s: Date, t: Date) {
    s.year < t.year || (s.year == t.year && (s.month < t.month || (s.month == t.month && s.day < t.day)))
  }

  // ----- julianDay -----

  /** julianDay. Go's division truncates; from year 0 on no operand is negative. */
  function JulianDay(t: Date): (r: int) {
    var a := (14 - t.month) / 12;
    var yy := t.year + 4800 - a;
    var mm := t.month + 12 * a - 3;
    t.day + (153 * mm + 2) / 5 + 365 * yy + yy / 4 - yy / 100 + yy / 400 - 32045
  }

  /** Leap days up to year n, for n >= 0. */
  function LeapDays(n: int): (r: int) { n / 4 - n / 100 + n / 400 }

  lemma LeapDaysStep(n: int)
    requires n > 0
    ensures LeapDays(n) == LeapDays(n - 1) + if IsLeap(n) then 1 else 0
  {
    DivisionStep(n, 4);
    DivisionStep(n, 100);
    DivisionStep(n, 400);
    Divides(n, 100, 4);
    Divides(n, 4, 25);
  }

  lemma Divides(n: int, k: int, times: int)
    requires k > 0 && times > 0
    ensures k * times > 0 && (n % (k * times) == 0 ==> n % k == 0)
  {
    Ordered(k, 1, times);
    if n % (k * times) == 0 {
      var q := n / (k * times);
      assert n == k * (times * q);
      Quotient(n, k, times * q, 0);
    }
  }

  lemma DivisionStep(n: int, k: int)
    requires n > 0 && k > 0
    ensures n / k == (n - 1) / k + if n % k == 0 then 1 else 0
  {
    var q, r := (n - 1) / k, (n - 1) % k;
    assert n == k * q + (r + 1);
    if r + 1 == k {
      assert n == k * (q + 1);
      Quotient(n, k, q + 1, 0);
    } else {
      Quotient(n, k, q, r + 1);
    }
  }

  lemma Quotient(n: int, k: int, q: int, r: int)
    requires k > 0 && n == k * q + r && 0 <= r < k
    ensures n / k == q && n % k == r
  {
    assert k * (n / k - q) == r - n % k;
    if n / k != q { AwayFromZero(k, n / k - q); }
  }

  lemma AwayFromZero(k: int, x: int)
    requires k > 0 && x != 0
    ensures k * x >= k || k * x <= -k
  {
    if x > 0 { Ordered(k, 1, x); } else { Ordered(k, x, -1); }
  }

  lemma Ordered(k: int, x: int, y: int)
    requires k > 0 && x <= y
    ensures k * x <= k * y
  {
  }

  lemma ShiftedLeap(y: int)
    ensures IsLeap(y + 4800) <==> IsLeap(y)
  {
    Shifted(y, 4, 1200);
    Shifted(y, 100, 48);
    Shifted(y, 400, 12);
  }

  lemma Shifted(y: int, k: int, times: int)
    requires k > 0
    ensures (y + k * times) % k == y % k
  {
    assert y + k * times == k * (y / k + times) + y % k;
    Quotient(y + k * times, k, y / k + times, y % k);
  }

  /** The number for a date is a day count within the year from March on, plus the days before that year. */
  lemma JulianDayParts(t: Date)
    requires IsDate(t)
    ensures t.month > 2 ==> JulianDay(t) == t.day + (153 * (t.month - 3) + 2) / 5 + 365 * (t.year + 4800) + LeapDays(t.year + 4800) - 32045
    ensures t.month <= 2 ==> JulianDay(t) == t.day + (153 * (t.month + 9) + 2) / 5 + 365 * (t.year + 4799) + LeapDays(t.year + 4799) - 32045
  {
    MonthShift(t.month);
    if t.month > 2 { AtShift(t, 0); } else { AtShift(t, 1); }
  }

  lemma MonthShift(month: int)
    requires 1 <= month <= 12
    ensures (14 - month) / 12 == if month > 2 then 0 else 1
  {
  }

  lemma AtShift(t: Date, a: int)
    requires a == (14 - t.month) / 12
    ensures JulianDay(t) == t.day + (153 * (t.month + 12 * a - 3) + 2) / 5 + 365 * (t.year + 4800 - a)
      + LeapDays(t.year + 4800 - a) - 32045
  {
  }

  /** The formula's month offsets are the lengths of the months, March being month 0. */
  lemma MonthStep(k: int)
    requires 0 <= k < 11
    ensures (153 * (k + 1) + 2) / 5 - (153 * k + 2) / 5 == DaysIn(1, if k < 10 then k + 3 else k - 9)
  {
  }

  lemma MonthEndNumber(t: Date)
    requires IsDate(t) && t.year >= 0 && t.day == DaysIn(t.year, t.month) && t.month != 2
    ensures JulianDay(NextDay(t)) == JulianDay(t) + 1
  {
    if t.month == 12 {
      YearEndNumber(t);
    } else {
      JulianDayParts(t);
      JulianDayParts(NextDay(t));
      MonthStep(if t.month > 2 then t.month - 3 else t.month + 9);
    }
  }

  lemma YearEndNumber(t: Date)
    requires IsDate(t) && t.year >= 0 && t.day == 31 && t.month == 12
    ensures JulianDay(NextDay(t)) == JulianDay(t) + 1
  {
    JulianDayParts(t);
    JulianDayParts(NextDay(t));
    MonthStep(9);
  }

  lemma FebruaryEndNumber(t: Date)
    requires IsDate(t) && t.year >= 0 && t.day == DaysIn(t.year, t.month) && t.month == 2
    ensures JulianDay(NextDay(t)) == JulianDay(t) + 1
  {
    JulianDayParts(t);
    JulianDayParts(NextDay(t));
    LeapDaysStep(t.year + 4800);
    ShiftedLeap(t.year);
  }

  /** Across month ends, leap days and the ends of centuries, the next day has the next number. */
  lemma NextDayNumber(t: Date)
    requires IsDate(t) && t.year >= 0
    ensures JulianDay(NextDay(t)) == JulianDay(t) + 1
  {
    if t.day == DaysIn(t.year, t.month) {
      if t.month == 2 { FebruaryEndNumber(t); } else { MonthEndNumber(t); }
    }
  }

  const EPOCH := Date(0, 1, 1)

  /** The date a number of days after the first day of year 0. */
  function DayAfter(n: nat): (t: Date)
    ensures IsDate(t) && t.year >= 0
  {
    if n == 0 then EPOCH else NextDay(DayAfter(n - 1))
  }

  /** julianDay counts days: it is the epoch's number plus the days gone by. */
  lemma {:induction false} CountsDays(n: nat)
    ensures JulianDay(DayAfter(n)) == 1721060 + n
  {
    if n > 0 {
      CountsDays(n - 1);
      NextDayNumber(DayAfter(n - 1));
    }
  }

  lemma NumberAtLeast(t: Date)
    requires IsDate(t) && t.year >= 0
    ensures JulianDay(t) >= 1721060
  {
    JulianDayParts(t);
    if t.month > 2 { LeapDaysGrow(4800, t.year + 4800); } else { LeapDaysGrow(4799, t.year + 4799); }
  }

  lemma {:induction false} LeapDaysGrow(m: int, n: int)
    requires 0 <= m <= n
    ensures LeapDays(m) <= LeapDays(n)
    decreases n
  {
    if m < n {
      LeapDaysStep(n);
      LeapDaysGrow(m, n - 1);
    }
  }

  /** Later dates have larger numbers. */
  lemma {:induction false} StrictlyIncreasing(s: Date, t: Date)
    requires IsDate(s) && IsDate(t) && s.year >= 0 && Before(s, t)
    ensures JulianDay(s) < JulianDay(t)
    decreases JulianDay(t)
  {
    var p := PreviousDay(t);
    NumberAtLeast(s);
    NextDayNumber(p);
    NumberAtLeast(p);
    if s != p {
      assert Before(s, p);
      StrictlyIncreasing(s, p);
    }
  }

  /** So a number belongs to one date only, and every date from the epoch on is counted. */
  lemma {:induction false} EveryDateCounted(t: Date)
    requires IsDate(t) && t.year >= 0
    ensures JulianDay(t) >= 1721060 && DayAfter(JulianDay(t) - 1721060) == t
    decreases JulianDay(t)
  {
    NumberAtLeast(t);
    if t == EPOCH {
      assert JulianDay(EPOCH) == 1721060;
    } else {
      var p := PreviousDay(t);
      NextDayNumber(p);
      NumberAtLeast(p);
      EveryDateCounted(p);
    }
  }

  // ----- time.Date -----

  datatype Time = Time(date: Date, hour: int, minute: int, second: int)

  predicate IsTime(t: Time) {
    IsDate(t.date) && 0 <= t.hour < 24 && 0 <= t.minute < 60 && 0 <= t.second < 60
  }

  /** A month outside 1 to 12 moves the year. */
  function MonthDate(year: int, month: int, day: int): (t: Date)
    ensures 1 <= t.month <= 12
  {
    Date(year + (month - 1) / 12, (month - 1) % 12 + 1, day)
  }

  /** A day outside its month moves on to the next month, or back to the one before. */
  function SettleDay(t: Date): (settled: Date)
    requires 1 <= t.month <= 12
    ensures IsDate(settled)
    decreases t.day < 1, if t.day < 1 then 1 - t.day else t.day
  {
    if t.day < 1 then
      var last := MonthDate(t.year, t.month - 1, 1);
      SettleDay(last.(day := t.day + DaysIn(last.year, last.month)))
    else if t.day > DaysIn(t.year, t.month) then
      SettleDay(MonthDate(t.year, t.month + 1, t.day - DaysIn(t.year, t.month)))
    else t
  }

  /** time.Date: seconds, minutes, hours, days and months out of range are carried. */
  function TimeOf(year: int, month: int, day: int, hour: int, minute: int, second: int): (t: Time)
    ensures IsTime(t)
  {
    var m := minute + second / 60;
    var h := hour + m / 60;
    Time(SettleDay(MonthDate(year, month, day + h / 24)), h % 24, m % 60, second % 60)
  }
}
