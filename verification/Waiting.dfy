/**
 * Waiting for a workload: the loop that polls for cancellation against one timed wait.
 * Times are whole microseconds from the moment the deadline is computed.
 */
module Waiting {
  import opened Common

  const POLL: nat := 200_000

  /** A workload ends by itself at some time with some code, or never. */
  datatype Workload = Workload(exit: Option<nat>, code: int)

  datatype Ending = Exited(code: int) | TimedOut | Cancelled

  datatype Status = Success | Failed | Timeout | Stopped

  predicate Before(a: Option<nat>, t: nat) {
    a.Some? && a.value < t
  }

  /** One timed wait; when the workload ends exactly at the limit, edge says whether it is caught. */
  function TimedWait(w: Workload, timeout: Option<nat>, edge: bool): Ending
    requires w.exit.Some? || timeout.Some?
  {
    if timeout.None? || Before(w.exit, timeout.value) || (edge && w.exit == timeout) then Exited(w.code)
    else TimedOut
  }

  /** The status and exit code of a run; stopped is the code of a workload that was killed, if known. */
  function Conclude(ending: Ending, stopped: Option<int>): (Status, int) {
    match ending
    case Exited(code) => (if code == 0 then Success else Failed, code)
    case TimedOut => (Timeout, if stopped.Some? then stopped.value else -9)
    case Cancelled => (Stopped, if stopped.Some? then stopped.value else -15)
  }

  /** Only a positive timeout gives the loop a deadline. */
  function Deadline(timeout: Option<nat>): Option<nat> {
    if timeout == Some(0) then None else timeout
  }

  /** The workload ends clear of the deadline, by more than the clock readings are late. */
  predicate Clear(w: Workload, timeout: Option<nat>, late: nat) {
    w.exit.Some? && timeout.Some? ==> w.exit.value + late < timeout.value || timeout.value < w.exit.value
  }

  /** The first time by which something ends the loop. */
  ghost function Bound(w: Workload, timeout: Option<nat>, cancel: Option<nat>): nat {
    Seconds(w.exit) + Seconds(Deadline(timeout)) + Seconds(cancel)
  }

  function Seconds(o: Option<nat>): nat {
    if o.Some? then o.value else 0
  }

  /**
   * The polling loop.  In round i the clock is read lag(i) after the cancellation check, and
   * edge(i) says whether a workload that ends exactly with that round's wait is caught by it.
   * With a positive or absent timeout and no cancellation it ends as one timed wait does; it
   * leaves by the deadline, and within one poll of a cancellation.  A timeout of zero is no
   * deadline here, although it is one for the timed wait.
   */
  method Poll(w: Workload, timeout: Option<nat>, cancel: Option<nat>,
              lag: nat -> nat, edge: nat -> bool, ghost late: nat)
    returns (ending: Ending, left: nat)
    requires w.exit.Some? || Deadline(timeout).Some? || cancel.Some?
    requires forall i :: lag(i) <= late
    ensures cancel.None? && timeout != Some(0) && Clear(w, timeout, late) ==>
      forall either :: ending == TimedWait(w, timeout, either)
    ensures cancel.None? && timeout == Some(0) ==>
      && ending == Exited(w.code)
      && forall either :: ending == TimedWait(w, timeout, either) <==> either && w.exit == Some(0)
    ensures Deadline(timeout).Some? ==> left <= timeout.value + late
    ensures cancel.Some? ==> left <= cancel.value + POLL + late
    ensures ending.Exited? ==> w.exit.Some? && w.exit.value <= left && ending.code == w.code
    ensures ending.TimedOut? ==> Deadline(timeout).Some? && timeout.value <= left
    ensures ending.Cancelled? ==> cancel.Some? && cancel.value <= left && !Before(w.exit, left)
  {
    var deadline := Deadline(timeout);
    var now := 0;
    var i := 0;
    while true
      invariant deadline.Some? ==> now <= deadline.value
      invariant cancel.Some? ==> now <= cancel.value + POLL + late
      invariant !Before(w.exit, now)
      decreases Bound(w, timeout, cancel) + 1 - now
    {
      if cancel.Some? && cancel.value <= now {
        return Cancelled, now;
      }
      now := now + lag(i);
      var span := POLL;
      if deadline.Some? {
        if deadline.value <= now {
          return TimedOut, now;
        }
        span := if deadline.value - now < POLL then deadline.value - now else POLL;
      }
      if Before(w.exit, now + span) || (edge(i) && w.exit == Some(now + span)) {
        return Exited(w.code), if w.exit.value < now then now else w.exit.value;
      }
      now := now + span;
      i := i + 1;
    }
  }

  /**
   * One run: an installed task waits once, a supervised or cancellable one polls.  Both record the
   * same status and exit code; success means the workload ended by itself with code zero.
   */
  method Execute(polled: bool, w: Workload, timeout: Option<nat>, cancel: Option<nat>,
                 lag: nat -> nat, edge: nat -> bool, ghost late: nat, stopped: Option<int>)
    returns (status: Status, code: int)
    requires polled || cancel.None?
    requires w.exit.Some? || cancel.Some? || (if polled then Deadline(timeout) else timeout).Some?
    requires forall i :: lag(i) <= late
    ensures cancel.None? && timeout != Some(0) && Clear(w, timeout, late) ==>
      forall either :: (status, code) == Conclude(TimedWait(w, timeout, either), stopped)
    ensures status.Success? || status.Failed? ==> w.exit.Some? && code == w.code && (status.Success? <==> code == 0)
    ensures status.Stopped? ==> cancel.Some? && code == (if stopped.Some? then stopped.value else -15)
    ensures status.Timeout? ==> timeout.Some? && code == if stopped.Some? then stopped.value else -9
  {
    var ending;
    if polled {
      var left;
      ending, left := Poll(w, timeout, cancel, lag, edge, late);
    } else {
      ending := TimedWait(w, timeout, edge(0));
    }
    return Conclude(ending, stopped).0, Conclude(ending, stopped).1;
  }
}
