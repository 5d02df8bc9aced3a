/**
 * The schedule grammar with its canonical text.  Input is ASCII.
 */
module ScheduleText {
  import opened Common
  import opened Text
  import opened TomlValue
  import opened Schedule

  // ---- The schedule grammar ----

  const WEEKDAY_NAMES: map<string, int> := map[
    "sun" := 0, "sunday" := 0, "mon" := 1, "monday" := 1, "tue" := 2, "tuesday" := 2,
    "wed" := 3, "wednesday" := 3, "thu" := 4, "thursday" := 4, "fri" := 5, "friday" := 5,
    "sat" := 6, "saturday" := 6]

  const SYSTEMD_WEEKDAY := ["Sun", "Mon", "Tue", "Wed", "Thu", "Fri", "Sat"]

  /** One or two digits of hour, a colon, two digits of minute. */
  function ParseTime(s: string): (r: Result<(int, int)>)
    ensures r.Ok? ==> 0 <= r.value.0 < 24 && 0 <= r.value.1 < 60
  {
    var n := |s| - 3;
    if (n == 1 || (n == 2 && '0' <= s[0] <= '2'))
       && AllDigits(s[..n]) && s[n] == ':' && '0' <= s[n + 1] <= '5' && IsDigit(s[n + 2])
    then
      var hour := ParseNat(s[..n]);
      var minute := 10 * DigitValue(s[n + 1]) + DigitValue(s[n + 2]);
      if hour > 23 then Err else Ok((hour, minute))
    else Err
  }

  function TimeText(hour: nat, minute: nat): string
    requires hour < 100 && minute < 100
  {
    TwoDigits(hour) + ":" + TwoDigits(minute)
  }

  function IntervalUnit(c: char): nat {
    if c == 'm' then 60 else 3600
  }

  /** The canonical text of each kind of schedule. */
  function TextOf(k: Kind): string
    requires ValidKind(k)
  {
    match k
    case Daily(h, m) => Spaced(["daily", TimeText(h, m)])
    case Weekly(w, h, m) => Spaced(["weekly", LowerAll(SYSTEMD_WEEKDAY[w]), TimeText(h, m)])
    case Monthly(d, h, m) => Spaced(["monthly", PrintNat(d), TimeText(h, m)])
    case Interval(_, interval) => Spaced(["every", interval])
    case Raw(_) => "custom"
  }

  function Canonical(k: Kind): Schedule
    requires ValidKind(k)
  {
    Schedule(TextOf(k), k)
  }

  function WithTime(time: string, k: (int, int) -> Kind): Result<Schedule>
    requires forall h, m | 0 <= h < 24 && 0 <= m < 60 :: ValidKind(k(h, m))
  {
    match ParseTime(time)
    case Err => Err
    case Ok(t) => Ok(Canonical(k(t.0, t.1)))
  }

  function ParseInterval(spec: string): Result<Schedule> {
    var n := |spec| - 1;
    if n < 1 || !AllDigits(spec[..n]) || (spec[n] != 'm' && spec[n] != 'h') then Err
    else
      var amount := ParseNat(spec[..n]);
      if amount == 0 then Err
      else Ok(Canonical(Interval(amount * IntervalUnit(spec[n]), PrintNat(amount) + [spec[n]])))
  }

  function ParseTokens(tokens: seq<string>): Result<Schedule> {
    if tokens == [] then Err
    else
      var head := LowerAll(tokens[0]);
      if head == "daily" then
        if |tokens| != 2 then Err else WithTime(tokens[1], (h, m) => Daily(h, m))
      else if head == "weekly" then
        if |tokens| != 3 || LowerAll(tokens[1]) !in WEEKDAY_NAMES then Err
        else
          var w := WEEKDAY_NAMES[LowerAll(tokens[1])];
          WithTime(tokens[2], (h, m) => Weekly(w, h, m))
      else if head == "monthly" then
        if |tokens| != 3 || tokens[1] == [] || !AllDigits(tokens[1]) then Err
        else
          var day := ParseNat(tokens[1]);
          if !(1 <= day <= 31) then Err else WithTime(tokens[2], (h, m) => Monthly(day, h, m))
      else if head == "every" then
        if |tokens| != 2 then Err else ParseInterval(LowerAll(tokens[1]))
      else Err
  }

  function ParseText(value: string): Result<Schedule> {
    ParseTokens(Split(value))
  }

  /** A table names systemd, launchd or both, and nothing else. */
  function ParseRaw(table: seq<Entry>): Result<Schedule> {
    if table == [] || exists i | 0 <= i < |table| :: table[i].key != "systemd" && table[i].key != "launchd"
    then Err
    else Ok(Canonical(Raw(table)))
  }

  function ParseValue(value: Value): Result<Schedule> {
    match value
    case Text(text) => ParseText(text)
    case Table(entries) => ParseRaw(entries)
    case _ => Err
  }

  // ---- Every accepted text has the canonical text of what it means ----

  predicate Produced(k: Kind) {
    && ValidKind(k) && !k.Raw?
    && (k.Interval? ==> ProducedInterval(k.seconds, k.interval))
  }

  predicate ProducedInterval(seconds: int, interval: string) {
    && |interval| >= 2
    && var n := |interval| - 1;
       && AllDigits(interval[..n]) && (interval[n] == 'm' || interval[n] == 'h')
       && var amount := ParseNat(interval[..n]);
          amount > 0 && interval[..n] == PrintNat(amount) && seconds == amount * IntervalUnit(interval[n])
  }

  lemma TimeRoundTrip(h: int, m: int)
    requires 0 <= h < 24 && 0 <= m < 60
    ensures ParseTime(TimeText(h, m)) == Ok((h, m)) && NoSpaces(TimeText(h, m))
  {
    var s := TimeText(h, m);
    assert s[..2] == TwoDigits(h);
    assert s[3] == TwoDigits(m)[0] && s[4] == TwoDigits(m)[1];
    assert TwoDigits(m)[..1] == [s[3]] && TwoDigits(m)[..1][..0] == [];
    assert s[2] == ':';
  }

  lemma IntervalIsProduced(spec: string)
    requires ParseInterval(spec).Ok?
    ensures var s := ParseInterval(spec).value; Produced(s.kind) && s == Canonical(s.kind) && s.kind.Interval?
  {
    var n := |spec| - 1;
    var printed := PrintNat(ParseNat(spec[..n])) + [spec[n]];
    assert printed[..|printed| - 1] == PrintNat(ParseNat(spec[..n]));
  }

  lemma ParseIsProduced(x: string)
    requires ParseText(x).Ok?
    ensures var s := ParseText(x).value; Produced(s.kind) && s == Canonical(s.kind)
  {
    var tokens := Split(x);
    if LowerAll(tokens[0]) == "every" {
      IntervalIsProduced(LowerAll(tokens[1]));
    }
  }

  lemma CanonicalDaily(k: Kind)
    requires Produced(k) && k.Daily?
    ensures ParseText(TextOf(k)) == Ok(Canonical(k))
  {
    TimeRoundTrip(k.hour, k.minute);
    SplitSpaced(["daily", TimeText(k.hour, k.minute)]);
    assert LowerAll("daily") == "daily";
  }

  lemma CanonicalWeekly(k: Kind)
    requires Produced(k) && k.Weekly?
    ensures ParseText(TextOf(k)) == Ok(Canonical(k))
  {
    TimeRoundTrip(k.hour, k.minute);
    ShortNames(k.weekday);
    SplitSpaced(["weekly", LowerAll(SYSTEMD_WEEKDAY[k.weekday]), TimeText(k.hour, k.minute)]);
    assert LowerAll("weekly") == "weekly";
  }

  lemma CanonicalMonthly(k: Kind)
    requires Produced(k) && k.Monthly?
    ensures ParseText(TextOf(k)) == Ok(Canonical(k))
  {
    TimeRoundTrip(k.hour, k.minute);
    SplitSpaced(["monthly", PrintNat(k.day), TimeText(k.hour, k.minute)]);
    assert LowerAll("monthly") == "monthly";
  }

  lemma ShortNames(w: int)
    requires 0 <= w < 7
    ensures var name := LowerAll(SYSTEMD_WEEKDAY[w]);
      name != [] && NoSpaces(name) && LowerAll(name) == name
      && name in WEEKDAY_NAMES && WEEKDAY_NAMES[name] == w
  {
    var short := ["sun", "mon", "tue", "wed", "thu", "fri", "sat"];
    assert LowerAll(SYSTEMD_WEEKDAY[w]) == short[w];
  }

  lemma IntervalWord(spec: string)
    requires |spec| >= 2 && AllDigits(spec[..|spec| - 1]) && (spec[|spec| - 1] == 'm' || spec[|spec| - 1] == 'h')
    ensures LowerAll(spec) == spec && NoSpaces(spec)
  {
    forall i | 0 <= i < |spec| - 1 ensures IsDigit(spec[i]) {
      assert spec[i] == spec[..|spec| - 1][i];
    }
  }

  lemma IntervalReparses(k: Kind)
    requires Produced(k) && k.Interval?
    ensures ParseInterval(k.interval) == Ok(Canonical(k))
  {
    var n := |k.interval| - 1;
    assert k.interval == k.interval[..n] + [k.interval[n]];
  }

  lemma CanonicalInterval(k: Kind)
    requires Produced(k) && k.Interval?
    ensures ParseText(TextOf(k)) == Ok(Canonical(k))
  {
    IntervalWord(k.interval);
    IntervalReparses(k);
    SplitSpaced(["every", k.interval]);
    assert LowerAll("every") == "every";
  }

  lemma CanonicalParses(k: Kind)
    requires Produced(k)
    ensures ParseText(TextOf(k)) == Ok(Canonical(k))
  {
    match k
    case Daily(_, _) => CanonicalDaily(k);
    case Weekly(_, _, _) => CanonicalWeekly(k);
    case Monthly(_, _, _) => CanonicalMonthly(k);
    case Interval(_, _) => CanonicalInterval(k);
  }

  /** Parsing is idempotent through the canonical text: parsing it again gives the same schedule. */
  lemma CanonicalRoundTrip(x: string)
    requires ParseText(x).Ok?
    ensures ParseText(ParseText(x).value.text) == ParseText(x)
  {
    ParseIsProduced(x);
    CanonicalParses(ParseText(x).value.kind);
  }

  // ---- The grammar as a relation ----

  const FULL_WEEKDAY := ["sunday", "monday", "tuesday", "wednesday", "thursday", "friday", "saturday"]

  /** A time of day, the hour with one digit or two, the minute with two. */
  predicate TimeSpells(s: string, h: int, m: int)
    requires 0 <= h < 24 && 0 <= m < 60
  {
    s == TimeText(h, m) || (h < 10 && s == [DigitChar(h)] + ":" + TwoDigits(m))
  }

  predicate WeekdaySpells(s: string, w: int)
    requires 0 <= w < 7
  {
    LowerAll(s) == LowerAll(SYSTEMD_WEEKDAY[w]) || LowerAll(s) == FULL_WEEKDAY[w]
  }

  predicate NumberSpells(s: string, n: int) {
    s != [] && AllDigits(s) && ParseNat(s) == n
  }

  predicate IntervalSpells(s: string, interval: string) {
    && s != [] && interval != []
    && s[|s| - 1] == interval[|interval| - 1]
    && AllDigits(interval[..|interval| - 1])
    && NumberSpells(s[..|s| - 1], ParseNat(interval[..|interval| - 1]))
  }

  /** The words that mean a schedule, in any letter case. */
  predicate Spells(words: seq<string>, k: Kind)
    requires Produced(k)
  {
    && words != []
    && match k
       case Daily(h, m) => |words| == 2 && LowerAll(words[0]) == "daily" && TimeSpells(words[1], h, m)
       case Weekly(w, h, m) =>
         |words| == 3 && LowerAll(words[0]) == "weekly" && WeekdaySpells(words[1], w) && TimeSpells(words[2], h, m)
       case Monthly(d, h, m) =>
         |words| == 3 && LowerAll(words[0]) == "monthly" && NumberSpells(words[1], d) && TimeSpells(words[2], h, m)
       case Interval(_, interval) =>
         |words| == 2 && LowerAll(words[0]) == "every" && IntervalSpells(LowerAll(words[1]), interval)
  }

  lemma DigitsValue(s: string)
    requires AllDigits(s) && 1 <= |s| <= 2
    ensures ParseNat(s) == if |s| == 1 then DigitValue(s[0]) else 10 * DigitValue(s[0]) + DigitValue(s[1])
  {
    assert s[..0] == [];
    if |s| == 2 {
      assert s[..1][..0] == [];
    }
  }

  lemma ValueDigits(a: char, b: char, n: nat)
    requires IsDigit(a) && IsDigit(b) && n < 100
    ensures 10 * DigitValue(a) + DigitValue(b) == n <==> [a, b] == TwoDigits(n)
  {
    DigitsValue([a, b]);
    DigitsValue(TwoDigits(n));
  }

  lemma TimeParses(s: string, h: int, m: int)
    requires 0 <= h < 24 && 0 <= m < 60
    ensures ParseTime(s) == Ok((h, m)) <==> TimeSpells(s, h, m)
  {
    if |s| == 4 {
      if AllDigits(s[..1]) && IsDigit(s[2]) && IsDigit(s[3]) {
        DigitsValue(s[..1]);
        ValueDigits(s[2], s[3], m);
        assert s == [s[0]] + [s[1]] + [s[2], s[3]];
      }
    } else if |s| == 5 {
      if AllDigits(s[..2]) && IsDigit(s[3]) && IsDigit(s[4]) {
        DigitsValue(s[..2]);
        ValueDigits(s[0], s[1], h);
        ValueDigits(s[3], s[4], m);
        assert s == [s[0], s[1]] + [s[2]] + [s[3], s[4]];
      }
    }
  }

  lemma WeekdayParses(s: string, w: int)
    requires 0 <= w < 7
    ensures (LowerAll(s) in WEEKDAY_NAMES && WEEKDAY_NAMES[LowerAll(s)] == w) <==> WeekdaySpells(s, w)
  {
    ShortNames(w);
    var short := ["sun", "mon", "tue", "wed", "thu", "fri", "sat"];
    assert LowerAll(SYSTEMD_WEEKDAY[w]) == short[w];
  }

  lemma DailyParses(words: seq<string>, k: Kind)
    requires Produced(k) && k.Daily?
    ensures ParseTokens(words) == Ok(Canonical(k)) <==> Spells(words, k)
  {
    if |words| == 2 {
      TimeParses(words[1], k.hour, k.minute);
    }
  }

  lemma WeeklyParses(words: seq<string>, k: Kind)
    requires Produced(k) && k.Weekly?
    ensures ParseTokens(words) == Ok(Canonical(k)) <==> Spells(words, k)
  {
    if |words| == 3 {
      TimeParses(words[2], k.hour, k.minute);
      WeekdayParses(words[1], k.weekday);
    }
  }

  lemma MonthlyParses(words: seq<string>, k: Kind)
    requires Produced(k) && k.Monthly?
    ensures ParseTokens(words) == Ok(Canonical(k)) <==> Spells(words, k)
  {
    if |words| == 3 {
      TimeParses(words[2], k.hour, k.minute);
    }
  }

  lemma IntervalParses(spec: string, k: Kind)
    requires Produced(k) && k.Interval?
    ensures ParseInterval(spec) == Ok(Canonical(k)) <==> IntervalSpells(spec, k.interval)
  {
    var n := |k.interval| - 1;
    var amount := ParseNat(k.interval[..n]);
    assert k.interval == PrintNat(amount) + [k.interval[n]];
    if ParseInterval(spec) == Ok(Canonical(k)) {
      var printed := PrintNat(ParseNat(spec[..|spec| - 1])) + [spec[|spec| - 1]];
      assert printed == k.interval;
      assert printed[..n] == PrintNat(ParseNat(spec[..|spec| - 1]));
    }
  }

  lemma EveryParses(words: seq<string>, k: Kind)
    requires Produced(k) && k.Interval?
    ensures ParseTokens(words) == Ok(Canonical(k)) <==> Spells(words, k)
  {
    if |words| == 2 {
      IntervalParses(LowerAll(words[1]), k);
    }
  }

  /** A text parses to a schedule if and only if its words mean that schedule. */
  lemma ParsesWhatItSpells(x: string, k: Kind)
    requires Produced(k)
    ensures ParseText(x) == Ok(Canonical(k)) <==> Spells(Split(x), k)
  {
    match k
    case Daily(_, _) => DailyParses(Split(x), k);
    case Weekly(_, _, _) => WeeklyParses(Split(x), k);
    case Monthly(_, _, _) => MonthlyParses(Split(x), k);
    case Interval(_, _) => EveryParses(Split(x), k);
  }
}
