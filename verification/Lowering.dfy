/**
 * Lowering neutral schedules to systemd and launchd, and what the two schedulers make of the
 * result: OnCalendar expressions by section "CALENDAR EVENTS" and spans by section "PARSING
 * TIME SPANS" of systemd.time(7), StartCalendarInterval tables by launchd.plist(5).
 */
module Lowering {
  import opened Common
  import opened Text
  import opened Calendar
  import opened Schedule
  import opened ScheduleText

  datatype SystemdTiming = SystemdTiming(
    onCalendar: seq<string>, onUnitActiveSec: Option<string>, onBootSec: Option<string>)

  datatype LaunchdTiming = LaunchdTiming(
    startCalendarInterval: seq<map<string, int>>, startInterval: Option<int>)

  const ANY_DATE := "*-*-*"

  function ClockText(k: Kind): string
    requires ValidKind(k) && IsCalendar(k)
  {
    TwoDigits(k.hour) + ":" + TwoDigits(k.minute) + ":" + "00"
  }

  function ToSystemd(k: Kind): SystemdTiming
    requires ValidKind(k) && !k.Raw?
  {
    match k
    case Daily(_, _) => SystemdTiming([ANY_DATE + " " + ClockText(k)], None, None)
    case Weekly(w, _, _) => SystemdTiming([SYSTEMD_WEEKDAY[w] + " " + (ANY_DATE + " " + ClockText(k))], None, None)
    case Monthly(d, _, _) => SystemdTiming(["*-*-" + TwoDigits(d) + " " + ClockText(k)], None, None)
    case Interval(_, interval) => SystemdTiming([], Some(interval), Some(interval))
  }

  function ToLaunchd(k: Kind): LaunchdTiming
    requires ValidKind(k) && !k.Raw?
  {
    match k
    case Daily(h, m) => LaunchdTiming([map["Hour" := h, "Minute" := m]], None)
    case Weekly(w, h, m) => LaunchdTiming([map["Weekday" := w, "Hour" := h, "Minute" := m]], None)
    case Monthly(d, h, m) => LaunchdTiming([map["Day" := d, "Hour" := h, "Minute" := m]], None)
    case Interval(s, _) => LaunchdTiming([], Some(s))
  }

  // ---- Reading an OnCalendar expression ----

  function SplitOn(s: string, c: char): (parts: seq<string>)
    ensures parts != []
  {
    if s == [] then [""]
    else
      var rest := SplitOn(s[1..], c);
      if s[0] == c then [""] + rest else [[s[0]] + rest[0]] + rest[1..]
  }

  /** One component: a star, or a number. */
  predicate ComponentMatches(component: string, value: int) {
    component == "*" || (component != "" && AllDigits(component) && ParseNat(component) == value)
  }

  predicate DateMatches(date: string, d: Date) {
    var parts := SplitOn(date, '-');
    && |parts| == 3 && ComponentMatches(parts[0], d.year)
    && ComponentMatches(parts[1], d.month) && ComponentMatches(parts[2], d.day)
  }

  predicate TimeMatches(time: string, t: Moment) {
    var parts := SplitOn(time, ':');
    && |parts| == 3 && ComponentMatches(parts[0], t.hour)
    && ComponentMatches(parts[1], t.minute) && ComponentMatches(parts[2], t.second)
  }

  predicate WeekdayMatches(name: string, d: Date)
    requires ValidDate(d)
  {
    LowerAll(name) in WEEKDAY_NAMES && WEEKDAY_NAMES[LowerAll(name)] == WeekdayOf(d)
  }

  /** An expression elapses at full seconds: optional weekday, date, time of day. */
  predicate CalendarEventAt(expression: string, t: Moment)
    requires ValidMoment(t)
  {
    var words := Split(expression);
    t.micro == 0 &&
    if |words| == 2 then DateMatches(words[0], t.date) && TimeMatches(words[1], t)
    else |words| == 3 && WeekdayMatches(words[0], t.date)
         && DateMatches(words[1], t.date) && TimeMatches(words[2], t)
  }

  predicate SystemdFiresAt(timing: SystemdTiming, t: Moment)
    requires ValidMoment(t)
  {
    exists i | 0 <= i < |timing.onCalendar| :: CalendarEventAt(timing.onCalendar[i], t)
  }

  // ---- Reading a StartCalendarInterval table ----

  predicate KeyAllows(table: map<string, int>, key: string, value: int) {
    key in table ==> table[key] == value
  }

  /** Missing keys are wildcards; 0 and 7 are Sunday; a day and a weekday together mean either. */
  predicate TableFiresAt(table: map<string, int>, t: Moment)
    requires ValidMoment(t)
  {
    var day := KeyAllows(table, "Day", t.date.day);
    var weekday := "Weekday" in table ==> table["Weekday"] % 7 == WeekdayOf(t.date);
    && t.second == 0 && t.micro == 0
    && KeyAllows(table, "Minute", t.minute) && KeyAllows(table, "Hour", t.hour)
    && KeyAllows(table, "Month", t.date.month)
    && (if "Day" in table && "Weekday" in table then day || weekday else day && weekday)
  }

  predicate LaunchdFiresAt(timing: LaunchdTiming, t: Moment)
    requires ValidMoment(t)
  {
    exists i | 0 <= i < |timing.startCalendarInterval| :: TableFiresAt(timing.startCalendarInterval[i], t)
  }

  /** A time span of one number and one unit. */
  function SpanSeconds(span: string): Option<int> {
    var n := |span| - 1;
    if n < 1 || !AllDigits(span[..n]) then None
    else match span[n]
      case 's' => Some(ParseNat(span[..n]))
      case 'm' => Some(60 * ParseNat(span[..n]))
      case 'h' => Some(3600 * ParseNat(span[..n]))
      case 'd' => Some(86400 * ParseNat(span[..n]))
      case _ => None
  }

  // ---- Both lowerings mean the neutral schedule ----

  predicate Lacks(s: string, c: char) {
    forall i | 0 <= i < |s| :: s[i] != c
  }

  lemma {:induction false} SplitOnFirst(part: string, c: char, rest: string)
    requires Lacks(part, c)
    ensures SplitOn(part, c) == [part]
    ensures SplitOn(part + [c] + rest, c) == [part] + SplitOn(rest, c)
  {
    if part == [] {
      assert [c] + rest == part + [c] + rest && ([c] + rest)[1..] == rest;
    } else {
      SplitOnFirst(part[1..], c, rest);
      assert [part[0]] + part[1..] == part;
      assert (part + [c] + rest)[1..] == part[1..] + [c] + rest;
    }
  }

  lemma ThreeParts(a: string, b: string, d: string, c: char)
    requires Lacks(a, c) && Lacks(b, c) && Lacks(d, c)
    ensures SplitOn(a + [c] + b + [c] + d, c) == [a, b, d]
  {
    assert a + [c] + b + [c] + d == a + [c] + (b + [c] + d);
    SplitOnFirst(a, c, b + [c] + d);
    SplitOnFirst(b, c, d);
    SplitOnFirst(d, c, "");
  }

  lemma ClockMeans(k: Kind, t: Moment)
    requires ValidKind(k) && IsCalendar(k)
    ensures NoSpaces(ClockText(k))
    ensures TimeMatches(ClockText(k), t) <==> t.hour == k.hour && t.minute == k.minute && t.second == 0
  {
    var h, m := TwoDigits(k.hour), TwoDigits(k.minute);
    assert ClockText(k) == h + [':'] + m + [':'] + "00";
    ThreeParts(h, m, "00", ':');
    assert "00"[..1] == "0" && "0"[..0] == "" && ParseNat("0") == 0 && ParseNat("00") == 0;
  }

  lemma AnyDate(d: Date)
    ensures DateMatches(ANY_DATE, d) && NoSpaces(ANY_DATE)
  {
    assert ANY_DATE == "*" + ['-'] + "*" + ['-'] + "*";
    ThreeParts("*", "*", "*", '-');
  }

  lemma DayOfMonth(day: nat, d: Date)
    requires day < 100
    ensures var text := "*-*-" + TwoDigits(day); NoSpaces(text) && (DateMatches(text, d) <==> d.day == day)
  {
    assert "*-*-" + TwoDigits(day) == "*" + ['-'] + "*" + ['-'] + TwoDigits(day);
    ThreeParts("*", "*", TwoDigits(day), '-');
  }

  /** Cutting off the first word and one space. */
  lemma WordThenWords(word: string, rest: string)
    requires word != "" && NoSpaces(word)
    ensures Split(word + " " + rest) == [word] + Split(rest)
  {
    assert word + " " + rest == word + (" " + rest);
    SplitWord(word, " " + rest);
    assert (" " + rest)[1..] == rest;
  }

  lemma OneWord(word: string)
    requires word != "" && NoSpaces(word)
    ensures Split(word) == [word]
  {
    SplitWord(word, "");
    assert word + "" == word;
  }

  lemma DailyFires(k: Kind, t: Moment)
    requires ValidKind(k) && k.Daily? && ValidMoment(t)
    ensures CalendarEventAt(ANY_DATE + " " + ClockText(k), t) <==> Matches(k, t)
  {
    ClockMeans(k, t);
    AnyDate(t.date);
    WordThenWords(ANY_DATE, ClockText(k));
    OneWord(ClockText(k));
  }

  lemma WeekdayMeans(weekday: nat, d: Date)
    requires weekday < 7 && ValidDate(d)
    ensures WeekdayMatches(SYSTEMD_WEEKDAY[weekday], d) <==> WeekdayOf(d) == weekday
  {
    ShortNames(weekday);
  }

  lemma WeeklyFires(k: Kind, t: Moment)
    requires ValidKind(k) && k.Weekly? && ValidMoment(t)
    ensures CalendarEventAt(SYSTEMD_WEEKDAY[k.weekday] + " " + (ANY_DATE + " " + ClockText(k)), t) <==> Matches(k, t)
  {
    ClockMeans(k, t);
    AnyDate(t.date);
    WeekdayMeans(k.weekday, t.date);
    WeekdaysAreWords(k.weekday);
    WordThenWords(SYSTEMD_WEEKDAY[k.weekday], ANY_DATE + " " + ClockText(k));
    WordThenWords(ANY_DATE, ClockText(k));
    OneWord(ClockText(k));
  }

  lemma WeekdaysAreWords(weekday: nat)
    requires weekday < 7
    ensures SYSTEMD_WEEKDAY[weekday] != "" && NoSpaces(SYSTEMD_WEEKDAY[weekday])
  {}

  lemma MonthlyFires(k: Kind, t: Moment)
    requires ValidKind(k) && k.Monthly? && ValidMoment(t)
    ensures CalendarEventAt("*-*-" + TwoDigits(k.day) + " " + ClockText(k), t) <==> Matches(k, t)
  {
    ClockMeans(k, t);
    DayOfMonth(k.day, t.date);
    WordThenWords("*-*-" + TwoDigits(k.day), ClockText(k));
    OneWord(ClockText(k));
  }

  /** The systemd timer elapses exactly at the minutes the neutral schedule means. */
  lemma SystemdMeansTheSchedule(k: Kind, t: Moment)
    requires ValidKind(k) && IsCalendar(k) && ValidMoment(t)
    ensures SystemdFiresAt(ToSystemd(k), t) <==> Matches(k, t)
  {
    OneExpression(ToSystemd(k), t);
    match k
    case Daily(_, _) => DailyFires(k, t);
    case Weekly(_, _, _) => WeeklyFires(k, t);
    case Monthly(_, _, _) => MonthlyFires(k, t);
  }

  lemma OneExpression(timing: SystemdTiming, t: Moment)
    requires ValidMoment(t) && |timing.onCalendar| == 1
    ensures SystemdFiresAt(timing, t) <==> CalendarEventAt(timing.onCalendar[0], t)
  {}

  /** So does the launchd table. */
  lemma LaunchdMeansTheSchedule(k: Kind, t: Moment)
    requires ValidKind(k) && IsCalendar(k) && ValidMoment(t)
    ensures LaunchdFiresAt(ToLaunchd(k), t) <==> Matches(k, t)
  {
    assert TableFiresAt(ToLaunchd(k).startCalendarInterval[0], t) <==> Matches(k, t);
  }

  /** The interval as written for systemd denotes the seconds given to launchd. */
  lemma IntervalsAgree(k: Kind)
    requires Produced(k) && k.Interval?
    ensures var s, l := ToSystemd(k), ToLaunchd(k);
      && s.onCalendar == [] && l.startCalendarInterval == []
      && l.startInterval == Some(k.seconds)
      && s.onUnitActiveSec.Some? && s.onBootSec == s.onUnitActiveSec
      && SpanSeconds(s.onUnitActiveSec.value) == l.startInterval
  {}

  /**
   * The search for missed runs agrees with both schedulers: the moment it returns is the last
   * one, not after now, at which either scheduler would have fired.
   */
  lemma SearchFindsLastFiring(k: Kind, now: Moment, t: Moment)
    requires IsCalendar(k) && ValidKind(k) && SafeNow(now) && ValidMoment(t)
    ensures SystemdFiresAt(ToSystemd(k), Latest(k, now)) && LaunchdFiresAt(ToLaunchd(k), Latest(k, now))
    ensures SystemdFiresAt(ToSystemd(k), t) && NotAfter(t, now) ==> NotAfter(t, Latest(k, now))
    ensures LaunchdFiresAt(ToLaunchd(k), t) && NotAfter(t, now) ==> NotAfter(t, Latest(k, now))
  {
    LatestIsGreatest(k, now);
    SystemdMeansTheSchedule(k, t);
    LaunchdMeansTheSchedule(k, t);
    SystemdMeansTheSchedule(k, Latest(k, now));
    LaunchdMeansTheSchedule(k, Latest(k, now));
  }
}
