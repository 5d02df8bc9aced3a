/**
 * Schedules in neutral form and the wall-clock minutes they mean.
 *
 * Matches is the one denotation: the backwards search maximises it, and the lowerings to
 * systemd and launchd have to mean it.
 */
module Schedule {
  import opened Common
  import opened Calendar
  import opened TomlValue

  /** A naive wall-clock value. */
  datatype Moment = Moment(date: Date, hour: int, minute: int, second: int, micro: int)

  predicate ValidMoment(t: Moment) {
    && ValidDate(t.date)
    && 0 <= t.hour < 24 && 0 <= t.minute < 60 && 0 <= t.second < 60 && 0 <= t.micro < 1_000_000
  }

  /** Microseconds since midnight. */
  function Clock(t: Moment): int {
    ((t.hour * 60 + t.minute) * 60 + t.second) * 1_000_000 + t.micro
  }

  predicate NotAfter(a: Moment, b: Moment) {
    DateBefore(a.date, b.date) || (a.date == b.date && Clock(a) <= Clock(b))
  }

  /** Naive wall-clock values are ordered field by field. */
  lemma NotAfterByFields(a: Moment, b: Moment)
    requires ValidMoment(a) && ValidMoment(b)
    ensures NotAfter(a, b) <==>
      if a.date.year != b.date.year then a.date.year < b.date.year
      else if a.date.month != b.date.month then a.date.month < b.date.month
      else if a.date.day != b.date.day then a.date.day < b.date.day
      else if a.hour != b.hour then a.hour < b.hour
      else if a.minute != b.minute then a.minute < b.minute
      else if a.second != b.second then a.second < b.second
      else a.micro <= b.micro
  {}

  datatype Kind =
    | Daily(hour: int, minute: int)
    | Weekly(weekday: int, hour: int, minute: int)
    | Monthly(day: int, hour: int, minute: int)
    | Interval(seconds: int, interval: string)
    | Raw(table: seq<Entry>)

  datatype Schedule = Schedule(text: string, kind: Kind)

  predicate IsCalendar(k: Kind) {
    k.Daily? || k.Weekly? || k.Monthly?
  }

  predicate ValidKind(k: Kind) {
    match k
    case Daily(h, m) => 0 <= h < 24 && 0 <= m < 60
    case Weekly(w, h, m) => 0 <= w < 7 && 0 <= h < 24 && 0 <= m < 60
    case Monthly(d, h, m) => 1 <= d <= 31 && 0 <= h < 24 && 0 <= m < 60
    case Interval(s, _) => s >= 60
    case Raw(_) => true
  }

  /** The minutes on which a calendar schedule fires. */
  predicate Matches(k: Kind, t: Moment)
    requires IsCalendar(k) && ValidMoment(t)
  {
    && t.hour == k.hour && t.minute == k.minute && t.second == 0 && t.micro == 0
    && (k.Weekly? ==> WeekdayOf(t.date) == k.weekday)
    && (k.Monthly? ==> t.date.day == k.day)
  }

  ghost predicate IsGreatest(k: Kind, now: Moment, t: Moment)
    requires IsCalendar(k)
  {
    && ValidMoment(t) && Matches(k, t) && NotAfter(t, now)
    && forall u | ValidMoment(u) && Matches(k, u) && NotAfter(u, now) :: NotAfter(u, t)
  }

  lemma GreatestIsUnique(k: Kind, now: Moment, t: Moment, u: Moment)
    requires IsCalendar(k) && IsGreatest(k, now, t) && IsGreatest(k, now, u)
    ensures t == u
  {
    assert NotAfter(t, u) && NotAfter(u, t);
  }

  // ---- The latest occurrence in closed form ----

  function OnDate(k: Kind, d: Date): Moment
    requires IsCalendar(k)
  {
    Moment(d, k.hour, k.minute, 0, 0)
  }

  predicate SafeNow(now: Moment) {
    ValidMoment(now) && now.date.year >= 2
  }

  lemma YearTwoIsDeep(d: Date)
    requires ValidDate(d) && d.year >= 2
    ensures Ordinal(d) > 365
  {
    YearsGrow(2, d.year);
    WithinYear(d);
  }

  /** Days since the weekday last came round, 0 on the day itself. */
  function WeekdayGap(d: Date, w: int): (n: nat)
    requires ValidDate(d)
    ensures n < 7
  {
    (WeekdayOf(d) - w) % 7
  }

  /** How many days before now's date the schedule last fired. */
  function DaysSince(k: Kind, now: Moment): (n: nat)
    requires (k.Daily? || k.Weekly?) && ValidKind(k) && SafeNow(now)
    ensures n <= 7
  {
    var same := NotAfter(OnDate(k, now.date), now);
    if k.Daily? then (if same then 0 else 1)
    else
      var n := WeekdayGap(now.date, k.weekday);
      if n == 0 && !same then 7 else n
  }

  /** How many months before now's month the schedule last fired. */
  function MonthsSince(k: Kind, now: Moment): (n: nat)
    requires k.Monthly? && ValidKind(k) && SafeNow(now)
    ensures n <= 2
    ensures ValidDate(MonthBack(now.date, n).(day := k.day))
    ensures NotAfter(OnDate(k, MonthBack(now.date, n).(day := k.day)), now)
  {
    if ValidDate(now.date.(day := k.day)) && NotAfter(OnDate(k, now.date.(day := k.day)), now) then 0
    else if ValidDate(MonthBack(now.date, 1).(day := k.day)) then 1
    else 2
  }

  /** The date itself, or the last day of the n-th month before it. */
  function MonthBack(d: Date, n: nat): (p: Date)
    requires ValidDate(d) && d.year >= 2 && n <= 2
    ensures ValidDate(p)
    ensures 12 * p.year + p.month == 12 * d.year + d.month - n
  {
    if n == 0 then d
    else if n == 1 then PreviousMonthEnd(d.year, d.month)
    else var q := PreviousMonthEnd(d.year, d.month); PreviousMonthEnd(q.year, q.month)
  }

  function Latest(k: Kind, now: Moment): (t: Moment)
    requires IsCalendar(k) && ValidKind(k) && SafeNow(now)
    ensures ValidMoment(t)
  {
    if k.Monthly? then
      OnDate(k, MonthBack(now.date, MonthsSince(k, now)).(day := k.day))
    else
      YearTwoIsDeep(now.date);
      OnDate(k, DaysBack(now.date, DaysSince(k, now)))
  }

  lemma SevenBack(x: int, w: int, n: nat)
    requires 0 <= w < 7 && n <= 7
    ensures (x - n) % 7 == w <==> (x % 7 - w) % 7 == if n == 7 then 0 else n
  {
    var q, r := x / 7, x % 7;
    if r >= n {
      Quotient(x - n, 7, q, r - n);
    } else {
      Quotient(x - n, 7, q - 1, r - n + 7);
    }
  }

  lemma WeekdayBack(d: Date, w: int, n: nat)
    requires ValidDate(d) && Ordinal(d) > n && 0 <= w < 7 && n <= 7
    ensures WeekdayOf(DaysBack(d, n)) == w <==> WeekdayGap(d, w) == if n == 7 then 0 else n
  {
    SevenBack(Ordinal(d), w, n);
  }

  lemma ProbeTime(k: Kind, now: Moment, n: nat)
    requires IsCalendar(k) && SafeNow(now) && Ordinal(now.date) > n
    ensures NotAfter(OnDate(k, DaysBack(now.date, n)), now) <==> (n > 0 || NotAfter(OnDate(k, now.date), now))
  {
    OrdinalOrders(DaysBack(now.date, n), now.date);
  }

  /** The n-th probe succeeds, among those up to the latest occurrence, only at that occurrence. */
  predicate ProbeHits(k: Kind, now: Moment, n: nat)
    requires (k.Daily? || k.Weekly?) && ValidKind(k) && SafeNow(now) && n <= 7 && Ordinal(now.date) > n
  {
    var t := OnDate(k, DaysBack(now.date, n));
    (k.Weekly? ==> WeekdayOf(t.date) == k.weekday) && NotAfter(t, now)
  }

  lemma FirstHit(k: Kind, now: Moment, n: nat)
    requires (k.Daily? || k.Weekly?) && ValidKind(k) && SafeNow(now) && n <= DaysSince(k, now)
    ensures Ordinal(now.date) > n
    ensures ProbeHits(k, now, n) <==> n == DaysSince(k, now)
  {
    YearTwoIsDeep(now.date);
    ProbeTime(k, now, n);
    if k.Weekly? {
      WeekdayBack(now.date, k.weekday, n);
    }
  }

  lemma LatestDayIsGreatest(k: Kind, now: Moment)
    requires (k.Daily? || k.Weekly?) && ValidKind(k) && SafeNow(now)
    ensures IsGreatest(k, now, Latest(k, now))
  {
    FirstHit(k, now, DaysSince(k, now));
    forall u | ValidMoment(u) && Matches(k, u) && NotAfter(u, now) ensures NotAfter(u, Latest(k, now)) {
      NothingLater(k, now, u);
    }
  }

  lemma NothingLater(k: Kind, now: Moment, u: Moment)
    requires (k.Daily? || k.Weekly?) && ValidKind(k) && SafeNow(now)
    requires ValidMoment(u) && Matches(k, u) && NotAfter(u, now)
    ensures NotAfter(u, Latest(k, now))
  {
    YearTwoIsDeep(now.date);
    OrdinalOrders(u.date, now.date);
    OrdinalOrders(u.date, Latest(k, now).date);
    var b := Ordinal(now.date) - Ordinal(u.date);
    if b < DaysSince(k, now) {
      FirstHit(k, now, b);
      OrdinalOrders(u.date, DaysBack(now.date, b));
    }
  }

  lemma LatestMonthIsGreatest(k: Kind, now: Moment)
    requires k.Monthly? && ValidKind(k) && SafeNow(now)
    ensures IsGreatest(k, now, Latest(k, now))
  {
    var t := Latest(k, now);
    forall u | ValidMoment(u) && Matches(k, u) && NotAfter(u, now) ensures NotAfter(u, t) {
      assert OnDate(k, u.date) == u;
      assert u.date == Date(u.date.year, u.date.month, k.day);
    }
  }

  /** For every calendar schedule, Latest is the greatest matching minute not after now. */
  lemma LatestIsGreatest(k: Kind, now: Moment)
    requires IsCalendar(k) && ValidKind(k) && SafeNow(now)
    ensures IsGreatest(k, now, Latest(k, now))
  {
    if k.Monthly? {
      LatestMonthIsGreatest(k, now);
    } else {
      LatestDayIsGreatest(k, now);
    }
  }

  // ---- The search as the code makes it ----

  /**
   * The backwards search.  rounds counts the iterations: the weekly search needs its eight
   * probes, the monthly search ends within three of its fourteen.
   */
  method PreviousOccurrence(schedule: Schedule, now: Moment) returns (r: Option<Moment>, ghost rounds: nat)
    requires ValidKind(schedule.kind) && SafeNow(now)
    ensures !IsCalendar(schedule.kind) ==> r == None
    ensures IsCalendar(schedule.kind) ==> r == Some(Latest(schedule.kind, now))
    ensures IsCalendar(schedule.kind) ==> IsGreatest(schedule.kind, now, r.value)
    ensures schedule.kind.Weekly? ==> rounds <= 8
    ensures schedule.kind.Monthly? ==> rounds <= 3
  {
    var k := schedule.kind;
    rounds := 0;
    if !IsCalendar(k) {
      return None, rounds;
    }
    LatestIsGreatest(k, now);
    var candidate := OnDate(k, now.date);
    YearTwoIsDeep(now.date);
    if k.Daily? {
      if !NotAfter(candidate, now) {
        candidate := candidate.(date := DaysBack(candidate.date, 1));
      }
      return Some(candidate), rounds;
    }
    if k.Weekly? {
      for back := 0 to 8
        invariant rounds == back <= DaysSince(k, now)
      {
        rounds := rounds + 1;
        var probe := candidate.(date := DaysBack(candidate.date, back));
        FirstHit(k, now, back);
        if WeekdayOf(probe.date) == k.weekday && NotAfter(probe, now) {
          return Some(probe), rounds;
        }
      }
      return None, rounds;
    }
    var probe := candidate.date;
    for i := 0 to 14
      invariant rounds == i <= MonthsSince(k, now)
      invariant probe == MonthBack(now.date, i)
    {
      rounds := rounds + 1;
      var dated := probe.(day := k.day);
      if ValidDate(dated) && NotAfter(OnDate(k, dated), now) {
        return Some(OnDate(k, dated)), rounds;
      }
      probe := PreviousMonthEnd(probe.year, probe.month);
    }
    return None, rounds;
  }
}
