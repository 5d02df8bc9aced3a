/**
 * The proleptic Gregorian calendar on naive wall-clock values: dates as year, month and day,
 * their day numbers, and stepping back day by day.
 */
module Calendar {

  datatype Date = Date(year: int, month: int, day: int)

  predicate IsLeap(y: int) {
    y % 4 == 0 && (y % 100 != 0 || y % 400 == 0)
  }

  function DaysInMonth(y: int, m: int): int {
    if m == 2 then (if IsLeap(y) then 29 else 28)
    else if m == 4 || m == 6 || m == 9 || m == 11 then 30
    else 31
  }

  predicate ValidDate(d: Date) {
    1 <= d.year && 1 <= d.month <= 12 && 1 <= d.day <= DaysInMonth(d.year, d.month)
  }

  function DaysBeforeMonth(y: int, m: int): int
    requires 1 <= m <= 13
    decreases m
  {
    if m == 1 then 0 else DaysBeforeMonth(y, m - 1) + DaysInMonth(y, m - 1)
  }

  function DaysInYear(y: int): int {
    if IsLeap(y) then 366 else 365
  }

  function DaysBeforeYear(y: int): int
    decreases y
  {
    if y <= 1 then 0 else DaysBeforeYear(y - 1) + DaysInYear(y - 1)
  }

  /** The day number: 1 January of year 1 is day 1. */
  function Ordinal(d: Date): int
    requires ValidDate(d)
  {
    DaysBeforeYear(d.year) + DaysBeforeMonth(d.year, d.month) + d.day
  }

  predicate DateBefore(a: Date, b: Date) {
    a.year < b.year || (a.year == b.year && (a.month < b.month || (a.month == b.month && a.day < b.day)))
  }

  function PreviousMonthEnd(y: int, m: int): (d: Date)
    requires 1 <= m <= 12 && (y > 1 || m > 1) && y >= 1
    ensures ValidDate(d)
  {
    if m > 1 then Date(y, m - 1, DaysInMonth(y, m - 1)) else Date(y - 1, 12, 31)
  }

  function PreviousDay(d: Date): (p: Date)
    requires ValidDate(d) && d != Date(1, 1, 1)
    ensures ValidDate(p)
  {
    if d.day > 1 then d.(day := d.day - 1) else PreviousMonthEnd(d.year, d.month)
  }

  /** Sunday is 0, the convention of launchd. */
  function WeekdayOf(d: Date): (w: int)
    requires ValidDate(d)
    ensures 0 <= w < 7
  {
    Ordinal(d) % 7
  }

  // ---- Day numbers agree with the order and with stepping back ----

  lemma MonthsFillYear(y: int)
    ensures DaysBeforeMonth(y, 13) == DaysInYear(y)
  {
    assert DaysBeforeMonth(y, 3) == 31 + DaysInMonth(y, 2);
    assert DaysBeforeMonth(y, 6) == 31 + DaysInMonth(y, 2) + 92;
    assert DaysBeforeMonth(y, 9) == 31 + DaysInMonth(y, 2) + 184;
    assert DaysBeforeMonth(y, 12) == 31 + DaysInMonth(y, 2) + 275;
  }

  lemma {:induction false} MonthsGrow(y: int, m: int, m': int)
    requires 1 <= m <= m' <= 13
    ensures DaysBeforeMonth(y, m) <= DaysBeforeMonth(y, m')
    ensures m < m' ==> DaysBeforeMonth(y, m) + DaysInMonth(y, m) <= DaysBeforeMonth(y, m')
    decreases m' - m
  {
    if m < m' {
      MonthsGrow(y, m + 1, m');
    }
  }

  lemma {:induction false} YearsGrow(y: int, y': int)
    requires 1 <= y <= y'
    ensures DaysBeforeYear(y) <= DaysBeforeYear(y')
    decreases y' - y
  {
    if y < y' {
      YearsGrow(y + 1, y');
    }
  }

  lemma WithinYear(d: Date)
    requires ValidDate(d)
    ensures DaysBeforeYear(d.year) < Ordinal(d) <= DaysBeforeYear(d.year + 1)
  {
    MonthsGrow(d.year, 1, d.month);
    MonthsGrow(d.year, d.month, 13);
    MonthsFillYear(d.year);
  }

  /** The day number orders dates as the fields do. */
  lemma OrdinalOrders(a: Date, b: Date)
    requires ValidDate(a) && ValidDate(b)
    ensures DateBefore(a, b) <==> Ordinal(a) < Ordinal(b)
    ensures a == b <==> Ordinal(a) == Ordinal(b)
  {
    if DateBefore(a, b) {
      EarlierIsSmaller(a, b);
    } else if a != b {
      EarlierIsSmaller(b, a);
    }
  }

  lemma EarlierIsSmaller(a: Date, b: Date)
    requires ValidDate(a) && ValidDate(b) && DateBefore(a, b)
    ensures Ordinal(a) < Ordinal(b)
  {
    if a.year < b.year {
      WithinYear(a);
      WithinYear(b);
      YearsGrow(a.year + 1, b.year);
    } else if a.month < b.month {
      MonthsGrow(a.year, a.month, b.month);
    }
  }

  lemma PreviousDayIsOneLess(d: Date)
    requires ValidDate(d) && d != Date(1, 1, 1)
    ensures Ordinal(PreviousDay(d)) == Ordinal(d) - 1
  {
    if d.day == 1 && d.month == 1 {
      MonthsFillYear(d.year - 1);
    }
  }

  /** Going back n days, as subtracting a timedelta does. */
  function DaysBack(d: Date, n: nat): (p: Date)
    requires ValidDate(d) && Ordinal(d) > n
    ensures ValidDate(p) && Ordinal(p) == Ordinal(d) - n
    decreases n
  {
    if n == 0 then d
    else
      assert d != Date(1, 1, 1);
      PreviousDayIsOneLess(d);
      DaysBack(PreviousDay(d), n - 1)
  }

  lemma SameQuotient(k: int, q: int, r: int, q': int, r': int)
    requires k > 0 && k * q + r == k * q' + r' && 0 <= r < k && 0 <= r' < k
    ensures q == q'
  {
    var d := q - q';
    assert k * d == r' - r;
  }

  lemma Quotient(x: int, k: int, q: int, r: int)
    requires k > 0 && x == k * q + r && 0 <= r < k
    ensures x / k == q && x % k == r
  {
    SameQuotient(k, q, r, x / k, x % k);
  }

  /** Python numbers Monday 0; the Sunday-based index is that number plus one, modulo seven. */
  lemma SundayBased(d: Date)
    requires ValidDate(d)
    ensures WeekdayOf(d) == ((Ordinal(d) + 6) % 7 + 1) % 7
  {
    var q, r := Ordinal(d) / 7, Ordinal(d) % 7;
    if r == 0 {
      Quotient(Ordinal(d) + 6, 7, q, 6);
    } else {
      Quotient(Ordinal(d) + 6, 7, q + 1, r - 1);
    }
  }


  // ---- The arithmetic of Python's datetime ----

  /** Days before 1 January of a year, in closed form. */
  lemma {:induction false} DaysBeforeYearIs(y: int)
    requires y >= 1
    ensures var n := y - 1; DaysBeforeYear(y) == 365 * n + n / 4 - n / 100 + n / 400
  {
    if y > 1 {
      DaysBeforeYearIs(y - 1);
      LeapDays(y - 1);
    }
  }

  /** One more leap day in years divisible by 4, except by 100, except by 400. */
  lemma LeapDays(n: nat)
    requires n >= 1
    ensures (n / 4 - n / 100 + n / 400) - ((n - 1) / 4 - (n - 1) / 100 + (n - 1) / 400) == if IsLeap(n) then 1 else 0
  {
    OneMore(n, 4);
    OneMore(n, 100);
    OneMore(n, 400);
    MultipleOf(n, 100, 4, 25);
    MultipleOf(n, 400, 100, 4);
  }

  lemma MultipleOf(n: nat, k: nat, d: nat, q: nat)
    requires d > 0 && k == d * q && k > 0
    ensures n % k == 0 ==> n % d == 0
  {
    if n % k == 0 {
      var m := n / k;
      assert n == k * m == d * (q * m);
      Quotient(n, d, q * m, 0);
    }
  }

  lemma OneMore(n: nat, k: nat)
    requires n >= 1 && k > 1
    ensures n / k - (n - 1) / k == if n % k == 0 then 1 else 0
  {
    var q, r := n / k, n % k;
    if r == 0 {
      Quotient(n - 1, k, q - 1, k - 1);
    } else {
      Quotient(n - 1, k, q, r - 1);
    }
  }

  const MONTH_LENGTHS := [31, 28, 31, 30, 31, 30, 31, 31, 30, 31, 30, 31]

  lemma MonthLengths(y: int, m: int)
    requires 1 <= m <= 12
    ensures DaysInMonth(y, m) == MONTH_LENGTHS[m - 1] + if m == 2 && IsLeap(y) then 1 else 0
  {}
}
