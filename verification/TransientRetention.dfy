/**
 * Retention: prune over the whole store of executions, run by one process alone.
 * (TransientPruning and TransientPresence say what prune may do when other processes interfere.)
 */
module TransientRetention {
  import opened Common
  import opened TransientRecord
  import opened TransientProtocol

  /** What the probes of both registrations answer for one execution. */
  datatype Answer = Absent | Present | Refused

  datatype Entry = Entry(record: Record, backend: string)

  /** The record after the reconcile that prune makes of a terminal execution. */
  function Reconciled(d: Record, answer: Answer, now: int): Record {
    match answer
    case Refused => Apply(d, FailCleanup, now)
    case _ => Apply(d, Collect(None, answer.Absent?, false), now)
  }

  predicate Considered(e: Entry, backend: string) {
    Terminal(e.record.status) && e.backend == backend
  }

  /** How the cleanup of a terminal execution stands after prune's reconcile. */
  function CleanupAfter(answer: Answer): Cleanup {
    match answer
    case Absent => Collected
    case Present => CleanupPending
    case Refused => CleanupFailed
  }

  function Revised(e: Entry, backend: string, answer: Answer, now: int): Entry {
    if Considered(e, backend) then e.(record := Reconciled(e.record, answer, now)) else e
  }

  /** The executions a prune deletes, by what it decides about them one after the other. */
  predicate Deletes(e: Entry, backend: string, answer: Answer, olderThan: nat, now: int) {
    && Considered(e, backend) && !answer.Refused?
    && Candidate(Revised(e, backend, answer, now).record, olderThan, now)
  }

  /** Finished, as far as the record says, at least so many seconds ago. */
  predicate FinishedBefore(d: Record, olderThan: int, now: int) {
    Terminal(d.status) && d.finishedAt.Some? && now - d.finishedAt.value >= olderThan
  }

  /**
   * Prune deletes exactly the executions of its backend that are terminal, have been so for the
   * given time, and whose registrations it found absent itself.
   */
  lemma PruneDeletesExactly(e: Entry, backend: string, answer: Answer, olderThan: nat, now: int)
    ensures Deletes(e, backend, answer, olderThan, now) <==>
      FinishedBefore(e.record, olderThan, now) && e.backend == backend && answer.Absent?
  {}

  /** A longer age limit never adds a candidate, and every candidate drops out at some limit. */
  lemma LongerLimitsKeepMore(d: Record, olderThan: nat, longer: nat, now: int)
    requires olderThan <= longer
    ensures Candidate(d, longer, now) ==> Candidate(d, olderThan, now)
    ensures Candidate(d, olderThan, now) ==>
      (Candidate(d, longer, now) <==> longer <= now - d.finishedAt.value)
  {}

  /**
   * When every probe answers "absent", a candidate of the dry run is deleted if and only if
   * it belongs to the selected backend.
   */
  lemma DryRunForetells(e: Entry, backend: string, olderThan: nat, now: int)
    requires Candidate(e.record, olderThan, now)
    ensures Deletes(e, backend, Absent, olderThan, now) <==> e.backend == backend
  {}

  /** The executions to remove: of the backend, finished long enough ago, found absent. */
  function Doomed(entries: map<nat, Entry>, backend: string, probe: nat -> Answer, olderThan: int, now: int): set<nat> {
    set id | id in entries && FinishedBefore(entries[id].record, olderThan, now)
             && entries[id].backend == backend && probe(id).Absent?
  }

  /** The others keep everything but the cleanup field of the terminal ones of the backend. */
  function Left(e: Entry, backend: string, answer: Answer): Entry {
    if Terminal(e.record.status) && e.backend == backend
    then e.(record := e.record.(cleanup := CleanupAfter(answer))) else e
  }

  lemma RevisedIsLeft(e: Entry, backend: string, answer: Answer, now: int)
    ensures Revised(e, backend, answer, now) == Left(e, backend, answer)
  {}

  /** What is listed after the first loop and was eligible in it are exactly the doomed. */
  lemma DoomedAreListed(before: map<nat, Entry>, after: map<nat, Entry>, backend: string, probe: nat -> Answer,
                        olderThan: nat, now: int, listed: set<nat>, eligible: set<nat>)
    requires after == map id | id in before :: Revised(before[id], backend, probe(id), now)
    requires eligible == set id | id in before && Considered(before[id], backend) && !probe(id).Refused?
    requires listed == set id | id in after
               && FinishedBefore(after[id].record, olderThan, now) && after[id].record.cleanup.Collected?
    ensures listed * eligible == Doomed(before, backend, probe, olderThan, now)
    ensures forall id | id in after :: after[id] == Left(before[id], backend, probe(id))
  {
    forall id | id in before ensures after[id] == Left(before[id], backend, probe(id)) {
      RevisedIsLeft(before[id], backend, probe(id), now);
    }
  }

  /** The doomed of those already visited, when one more is visited. */
  lemma OneMoreVisited(listed: set<nat>, todo: set<nat>, eligible: set<nat>, id: nat)
    requires todo <= listed && id in todo
    ensures var gone := (listed - todo) * eligible;
      id !in gone && (listed - (todo - {id})) * eligible == if id in eligible then gone + {id} else gone
  {}

  lemma OneMoreGone(entries: map<nat, Entry>, gone: set<nat>, id: nat)
    ensures entries - gone - {id} == entries - (gone + {id})
  {}

  class Store {
    var entries: map<nat, Entry>

    constructor (entries: map<nat, Entry>)
      ensures this.entries == entries
    {
      this.entries := entries;
    }

    /** The read-only listing behind the dry run. */
    method PruneCandidates(olderThan: int, now: int) returns (r: Result<set<nat>>)
      ensures olderThan < 0 ==> r == Err
      ensures olderThan >= 0 ==>
        r.Ok? && r.value == set id | id in entries
          && FinishedBefore(entries[id].record, olderThan, now) && entries[id].record.cleanup.Collected?
    {
      if olderThan < 0 {
        return Err;
      }
      var candidates: set<nat> := {};
      var todo := entries.Keys;
      while todo != {}
        invariant todo <= entries.Keys
        invariant candidates == set id | id in entries && id !in todo && Candidate(entries[id].record, olderThan, now)
        decreases |todo|
      {
        var id :| id in todo;
        todo := todo - {id};
        if Candidate(entries[id].record, olderThan, now) {
          candidates := candidates + {id};
        }
      }
      return Ok(candidates);
    }

    /** One reconcile; false stands for the error it raises when the scheduler refuses. */
    method Reconcile(id: nat, answer: Answer, now: int) returns (ok: bool)
      requires id in entries && Terminal(entries[id].record.status)
      modifies this
      ensures ok == !answer.Refused?
      ensures var e := old(entries)[id];
        entries == old(entries)[id := e.(record := Reconciled(e.record, answer, now))]
    {
      var d := entries[id].record;
      if answer.Refused? {
        entries := entries[id := entries[id].(record := d.(cleanup := CleanupFailed))];
        return false;
      }
      d := d.(cleanup := if answer.Absent? then Collected else CleanupPending);
      entries := entries[id := entries[id].(record := d)];
      return true;
    }

    /** The first loop of prune: reconcile every terminal execution of the backend. */
    method ReconcileTerminal(backend: string, probe: nat -> Answer, now: int) returns (eligible: set<nat>)
      modifies this
      ensures entries == map id | id in old(entries) :: Revised(old(entries)[id], backend, probe(id), now)
      ensures eligible == set id | id in old(entries)
                && Considered(old(entries)[id], backend) && !probe(id).Refused?
    {
      ghost var before := entries;
      eligible := {};
      var todo := entries.Keys;
      while todo != {}
        invariant todo <= before.Keys == entries.Keys
        invariant eligible == set id | id in before && id !in todo
                    && Considered(before[id], backend) && !probe(id).Refused?
        invariant forall id | id in before ::
          entries[id] == if id in todo then before[id] else Revised(before[id], backend, probe(id), now)
        decreases |todo|
      {
        var id :| id in todo;
        todo := todo - {id};
        if Considered(entries[id], backend) {
          var ok := Reconcile(id, probe(id), now);
          assert entries[id] == Revised(before[id], backend, probe(id), now);
          if ok {
            eligible := eligible + {id};
          }
        }
      }
    }

    /** The second loop of prune: delete the listed directories that were eligible. */
    method Delete(listed: set<nat>, eligible: set<nat>) returns (removed: nat)
      requires listed <= entries.Keys
      modifies this
      ensures entries == old(entries) - listed * eligible
      ensures removed == |listed * eligible|
    {
      var todo := listed;
      removed := 0;
      assert listed - todo == {} && (listed - todo) * eligible == {};
      while todo != {}
        invariant todo <= listed && removed == |(listed - todo) * eligible|
        invariant entries == old(entries) - (listed - todo) * eligible
        decreases |todo|
      {
        var id :| id in todo;
        OneMoreVisited(listed, todo, eligible, id);
        OneMoreGone(old(entries), (listed - todo) * eligible, id);
        todo := todo - {id};
        if id in eligible {
          entries := entries - {id};
          removed := removed + 1;
        }
      }
      assert listed - todo == listed;
    }

    /** Everything prune does: the surviving entries, revised, and the number deleted. */
    method Prune(olderThan: nat, now: int, backend: string, probe: nat -> Answer) returns (removed: nat)
      modifies this
      ensures entries.Keys == old(entries).Keys - Doomed(old(entries), backend, probe, olderThan, now)
      ensures removed == |Doomed(old(entries), backend, probe, olderThan, now)|
      ensures forall id | id in entries :: entries[id] == Left(old(entries)[id], backend, probe(id))
    {
      ghost var before := entries;
      ghost var doomed := Doomed(before, backend, probe, olderThan, now);
      var eligible := ReconcileTerminal(backend, probe, now);
      var listed := PruneCandidates(olderThan, now);
      DoomedAreListed(before, entries, backend, probe, olderThan, now, listed.value, eligible);
      removed := Delete(listed.value, eligible);
    }
  }
}
