/**
 * Missed occurrences: whether a task is due, decided from its last record.
 *
 * Moments are wall-clock values of one zone; Stamp counts their microseconds.
 */
module Catchup {
  import opened Common
  import opened Calendar
  import opened Schedule
  import opened TaskSpec

  const SECOND := 1_000_000

  function Stamp(t: Moment): int
    requires ValidMoment(t)
  {
    Ordinal(t.date) * 86_400 * SECOND + Clock(t)
  }

  /** The start time in a record: absent or not a string, not parsable, or whole seconds. */
  datatype Started = NoStart | BadStart | StartedAt(stamp: int)

  datatype LastRecord = NoRecord | Recorded(skipped: bool, started: Started)

  /** The start time as a record keeps it, truncated to the second. */
  function Truncated(stamp: int): int {
    stamp / SECOND * SECOND
  }

  /** The start of the last run that covers anything. */
  function Coverage(last: LastRecord): Option<int> {
    match last
    case NoRecord => None
    case Recorded(skipped, started) =>
      if skipped then None
      else match started
        case StartedAt(stamp) => Some(stamp)
        case _ => None
  }

  datatype Decision = Decision(due: bool, occurrence: Option<Moment>)

  predicate ValidTask(task: Task) {
    task.schedule.Some? ==> ValidKind(task.schedule.value.kind)
  }

  function Decide(task: Task, last: LastRecord, now: Moment): Decision
    requires ValidTask(task) && SafeNow(now)
  {
    if task.disabled || task.schedule.None? || !EffectivePersistent(task) then Decision(false, None)
    else
      var k := task.schedule.value.kind;
      var covered := Coverage(last);
      if k.Interval? then
        Decision(covered.None? || Stamp(now) - covered.value > k.seconds * SECOND, None)
      else if k.Raw? then Decision(false, None)
      else
        var occurrence := Latest(k, now);
        Decision(covered.None? || covered.value < Stamp(occurrence), Some(occurrence))
  }

  /** Enabled, persistent, with a calendar schedule: the tasks the catch-up trigger exists for. */
  predicate Qualifies(task: Task) {
    && task.schedule.Some? && IsCalendar(task.schedule.value.kind)
    && EffectivePersistent(task) && !task.disabled
  }

  predicate TriggersWanted(tasks: map<string, Task>) {
    exists name | name in tasks :: Qualifies(tasks[name])
  }

  /** The decisions for the enabled tasks, in order. */
  function Plan(tasks: seq<Task>, last: map<string, LastRecord>, now: Moment): seq<Decision>
    requires SafeNow(now) && forall i | 0 <= i < |tasks| :: ValidTask(tasks[i]) && tasks[i].name in last
  {
    if tasks == [] then []
    else
      (if tasks[0].disabled then [] else [Decide(tasks[0], last[tasks[0].name], now)])
      + Plan(tasks[1..], last, now)
  }

  // ---- Due means missed ----

  lemma StampOrders(t: Moment, u: Moment)
    requires ValidMoment(t) && ValidMoment(u)
    ensures NotAfter(t, u) <==> Stamp(t) <= Stamp(u)
  {
    OrdinalOrders(t.date, u.date);
    OrdinalOrders(u.date, t.date);
  }

  /** A scheduled minute, not after now, that no covering run started at or after. */
  ghost predicate Missed(k: Kind, last: LastRecord, now: Moment, t: Moment)
    requires IsCalendar(k)
  {
    && ValidMoment(t) && Matches(k, t) && NotAfter(t, now)
    && (Coverage(last).Some? ==> Coverage(last).value < Stamp(t))
  }

  /** A qualifying task is due exactly when some scheduled minute up to now was missed. */
  lemma DueMeansMissed(task: Task, last: LastRecord, now: Moment)
    requires ValidTask(task) && SafeNow(now) && Qualifies(task)
    ensures Decide(task, last, now).due <==> exists t :: Missed(task.schedule.value.kind, last, now, t)
  {
    var k := task.schedule.value.kind;
    LatestIsGreatest(k, now);
    if Decide(task, last, now).due {
      assert Missed(k, last, now, Latest(k, now));
    }
    forall t | Missed(k, last, now, t) ensures Stamp(t) <= Stamp(Latest(k, now)) {
      StampOrders(t, Latest(k, now));
    }
  }

  /** A disabled, an unscheduled, a raw and a non-persistent task are never due. */
  lemma NeverDue(task: Task, last: LastRecord, now: Moment)
    requires ValidTask(task) && SafeNow(now)
    requires task.disabled || task.schedule.None? || task.schedule.value.kind.Raw? || task.persistent == Some(false)
    ensures !Decide(task, last, now).due
  {}

  /** A run covers what came before it unless it was skipped or its start time cannot be read. */
  predicate Covers(last: LastRecord) {
    last.Recorded? && !last.skipped && last.started.StartedAt?
  }

  /**
   * An interval task is due exactly if it is enabled and expressly persistent and no run covers
   * anything, or the last one started longer ago than the interval.
   */
  lemma IntervalDue(task: Task, last: LastRecord, now: Moment)
    requires ValidTask(task) && SafeNow(now) && task.schedule.Some? && task.schedule.value.kind.Interval?
    ensures Decide(task, last, now).due <==>
      && !task.disabled && task.persistent == Some(true)
      && (Covers(last) ==> Stamp(now) - last.started.stamp > task.schedule.value.kind.seconds * SECOND)
  {}

  /** A calendar task that qualifies is due exactly if no run covers its latest occurrence, which it names. */
  lemma CalendarDue(task: Task, last: LastRecord, now: Moment)
    requires ValidTask(task) && SafeNow(now) && task.schedule.Some? && IsCalendar(task.schedule.value.kind)
    requires !task.disabled && task.persistent != Some(false)
    ensures var r := Decide(task, last, now);
      && r.occurrence.Some? && IsGreatest(task.schedule.value.kind, now, r.occurrence.value)
      && (r.due <==> !(Covers(last) && last.started.stamp >= Stamp(r.occurrence.value)))
  {
    LatestIsGreatest(task.schedule.value.kind, now);
  }

  /** The plan decides for every enabled task, in order, and for no other. */
  lemma {:induction false} PlanDecides(tasks: seq<Task>, last: map<string, LastRecord>, now: Moment)
    requires SafeNow(now) && forall i | 0 <= i < |tasks| :: ValidTask(tasks[i]) && tasks[i].name in last
    ensures |Plan(tasks, last, now)| == |Enabled(tasks)|
    ensures forall i | 0 <= i < |Enabled(tasks)| ::
      var task := Enabled(tasks)[i];
      task in tasks && !task.disabled && Plan(tasks, last, now)[i] == Decide(task, last[task.name], now)
    ensures forall task | task in tasks && !task.disabled :: task in Enabled(tasks)
  {
    if tasks != [] {
      PlanDecides(tasks[1..], last, now);
      assert forall task | task in Enabled(tasks[1..]) :: task in tasks;
      forall task | task in tasks && !task.disabled ensures task in Enabled(tasks) {
        assert task == tasks[0] || task in tasks[1..];
      }
    }
  }

  function Enabled(tasks: seq<Task>): seq<Task> {
    if tasks == [] then [] else (if tasks[0].disabled then [] else [tasks[0]]) + Enabled(tasks[1..])
  }

  // ---- Truncation to whole seconds ----

  lemma WholeSeconds(k: Kind, t: Moment)
    requires IsCalendar(k) && ValidMoment(t) && Matches(k, t)
    ensures exists s :: Stamp(t) == s * SECOND
  {
    assert Stamp(t) == (Ordinal(t.date) * 86_400 + (t.hour * 60 + t.minute) * 60) * SECOND;
  }

  lemma TruncatedToSeconds(stamp: int)
    ensures Truncated(stamp) % SECOND == 0 && 0 <= stamp - Truncated(stamp) < SECOND
  {}

  lemma TruncationKeepsOrder(stamp: int, s: int)
    ensures Truncated(stamp) < s * SECOND <==> stamp < s * SECOND
  {}

  /** Recording the start in whole seconds never changes the decision of a calendar task. */
  lemma TruncationIsHarmless(task: Task, skipped: bool, stamp: int, now: Moment)
    requires ValidTask(task) && SafeNow(now) && !(task.schedule.Some? && task.schedule.value.kind.Interval?)
    ensures Decide(task, Recorded(skipped, StartedAt(Truncated(stamp))), now)
         == Decide(task, Recorded(skipped, StartedAt(stamp)), now)
  {
    if task.schedule.Some? && IsCalendar(task.schedule.value.kind) {
      var k := task.schedule.value.kind;
      LatestIsGreatest(k, now);
      WholeSeconds(k, Latest(k, now));
      var s :| Stamp(Latest(k, now)) == s * SECOND;
      TruncationKeepsOrder(stamp, s);
    }
  }

  // ---- Catching up is done once ----

  /** A record of a run that was not skipped and started at or after the stamp. */
  ghost predicate RanSince(last: LastRecord, stamp: int) {
    last.Recorded? && !last.skipped && last.started.StartedAt?
    && exists start :: start >= stamp && last.started.stamp == Truncated(start)
  }

  lemma RunSettlesTask(task: Task, last: LastRecord, now: Moment)
    requires ValidTask(task) && SafeNow(now) && RanSince(last, Stamp(now))
    ensures !Decide(task, last, now).due
  {
    var start :| start >= Stamp(now) && last.started.stamp == Truncated(start);
    if task.schedule.Some? && IsCalendar(task.schedule.value.kind) {
      var k := task.schedule.value.kind;
      LatestIsGreatest(k, now);
      StampOrders(Latest(k, now), now);
      WholeSeconds(k, Latest(k, now));
      var s :| Stamp(Latest(k, now)) == s * SECOND;
      TruncationKeepsOrder(start, s);
    }
  }

  /** Deciding again at the same instant, after every due task ran, finds nothing due. */
  lemma {:induction false} CatchUpSettles(
    tasks: seq<Task>, before: map<string, LastRecord>, after: map<string, LastRecord>, now: Moment)
    requires SafeNow(now)
    requires forall i | 0 <= i < |tasks| ::
      ValidTask(tasks[i]) && tasks[i].name in before && tasks[i].name in after
    requires forall i | 0 <= i < |tasks| ::
      if Decide(tasks[i], before[tasks[i].name], now).due then RanSince(after[tasks[i].name], Stamp(now))
      else after[tasks[i].name] == before[tasks[i].name]
    ensures forall i | 0 <= i < |Plan(tasks, after, now)| :: !Plan(tasks, after, now)[i].due
  {
    if tasks != [] {
      if Decide(tasks[0], before[tasks[0].name], now).due {
        RunSettlesTask(tasks[0], after[tasks[0].name], now);
      }
      CatchUpSettles(tasks[1..], before, after, now);
    }
  }
}
