/** The scheduler's claim: one row per job type and day, and only the process that inserted it runs the job. */
module JobClaims {
  import opened Calendar

  type JobType = nat

  type Process = nat

  datatype RunStatus = RUNNING | COMPLETED | FAILED

  datatype JobRun = JobRun(jobType: JobType, runDate: int, claimedBy: Process, status: RunStatus)

  /** A process attempts a job at some time of day, or the job it is running ends. */
  datatype Event = Attempt(jobType: JobType, now: Time, process: Process) | End(run: nat, ok: bool)

  // ---- steps ------------------------------------------------------------

  predicate Claimed(runs: seq<JobRun>, jobType: JobType, day: int) {
    exists i :: 0 <= i < |runs| && runs[i].jobType == jobType && runs[i].runDate == day
  }

  function Step(runs: seq<JobRun>, e: Event): seq<JobRun> {
    match e
    case Attempt(jobType, now, process) =>
      if Claimed(runs, jobType, StartOfDay(now)) then runs
      else runs + [JobRun(jobType, StartOfDay(now), process, RUNNING)]
    case End(i, ok) =>
      if i < |runs| && runs[i].status == RUNNING then runs[i := runs[i].(status := if ok then COMPLETED else FAILED)]
      else runs
  }

  function Run(events: seq<Event>): seq<JobRun> {
    if events == [] then [] else Step(Run(events[..|events| - 1]), events[|events| - 1])
  }

  // ---- the program --------------------------------------------------------

  class Scheduler {
    var runs: seq<JobRun>

    constructor ()
      ensures runs == []
    {
      runs := [];
    }

    /** The claim, up to the decision whether to call the job. */
    method Claim(jobType: JobType, now: Time, process: Process) returns (claimed: bool)
      modifies this
      ensures runs == Step(old(runs), Attempt(jobType, now, process))
      ensures claimed <==> !Claimed(old(runs), jobType, StartOfDay(now))
      ensures runs == old(runs) + if claimed then [JobRun(jobType, StartOfDay(now), process, RUNNING)] else []
    {
      var runDate := StartOfDay(now);
      for i := 0 to |runs|
        invariant forall k :: 0 <= k < i ==> !(runs[k].jobType == jobType && runs[k].runDate == runDate)
        invariant runs == old(runs)
      {
        if runs[i].jobType == jobType && runs[i].runDate == runDate {
          return false;
        }
      }
      runs := runs + [JobRun(jobType, runDate, process, RUNNING)];
      return true;
    }

    /** A job that ends, well or badly, does not free its claim for the day. */
    method Finish(run: nat, ok: bool)
      requires run < |runs| && runs[run].status == RUNNING
      modifies this
      ensures runs == Step(old(runs), End(run, ok))
      ensures runs == old(runs)[run := old(runs)[run].(status := if ok then COMPLETED else FAILED)]
      ensures forall jobType, day :: Claimed(runs, jobType, day) <==> Claimed(old(runs), jobType, day)
    {
      forall jobType, day
        ensures Claimed(Step(runs, End(run, ok)), jobType, day) <==> Claimed(runs, jobType, day)
      {
        StepClaims(runs, End(run, ok), jobType, day);
      }
      runs := runs[run := runs[run].(status := if ok then COMPLETED else FAILED)];
    }
  }

  // ---- at most once, and once if attempted --------------------------------

  /** How often a run of events starts a job on a day: the attempts that win the claim. */
  function Starts(events: seq<Event>, jobType: JobType, day: int): nat {
    if events == [] then 0
    else
      var e := events[|events| - 1];
      Starts(events[..|events| - 1], jobType, day)
      + if Attempts(e, jobType, day) && !Claimed(Run(events[..|events| - 1]), jobType, day) then 1 else 0
  }

  predicate Attempts(e: Event, jobType: JobType, day: int) {
    e.Attempt? && e.jobType == jobType && StartOfDay(e.now) == day
  }

  predicate Attempted(events: seq<Event>, jobType: JobType, day: int) {
    exists i :: 0 <= i < |events| && Attempts(events[i], jobType, day)
  }

  lemma StepClaims(runs: seq<JobRun>, e: Event, jobType: JobType, day: int)
    ensures Claimed(Step(runs, e), jobType, day) <==> Claimed(runs, jobType, day) || Attempts(e, jobType, day)
  {
    var t := Step(runs, e);
    if i :| 0 <= i < |runs| && runs[i].jobType == jobType && runs[i].runDate == day {
      assert t[i].jobType == jobType && t[i].runDate == day;
    } else if Attempts(e, jobType, day) {
      assert t[|runs|].jobType == jobType && t[|runs|].runDate == day;
    }
  }

  /**
    Whatever the processes and however late they try: a day on which somebody
    attempts a job runs it exactly once, any other day never.
   */
  lemma {:induction false} OneRunPerJobAndDay(events: seq<Event>, jobType: JobType, day: int)
    ensures Starts(events, jobType, day) == if Attempted(events, jobType, day) then 1 else 0
    ensures Claimed(Run(events), jobType, day) <==> Attempted(events, jobType, day)
  {
    if events != [] {
      var n := |events| - 1;
      OneRunPerJobAndDay(events[..n], jobType, day);
      StepClaims(Run(events[..n]), events[n], jobType, day);
      AttemptedSnoc(events, jobType, day);
    }
  }

  lemma AttemptedSnoc(events: seq<Event>, jobType: JobType, day: int)
    requires events != []
    ensures Attempted(events, jobType, day)
            <==> Attempted(events[..|events| - 1], jobType, day) || Attempts(events[|events| - 1], jobType, day)
  {
    var n := |events| - 1;
    if i :| 0 <= i < n && Attempts(events[..n][i], jobType, day) {
      assert Attempts(events[i], jobType, day);
    }
    if i :| 0 <= i < |events| && Attempts(events[i], jobType, day) && i != n {
      assert Attempts(events[..n][i], jobType, day);
    }
  }

  /** No two rows share job type and day. */
  lemma {:induction false} ClaimsAreUnique(events: seq<Event>)
    ensures forall i, k :: 0 <= i < k < |Run(events)| ==>
            Run(events)[i].jobType != Run(events)[k].jobType || Run(events)[i].runDate != Run(events)[k].runDate
  {
    if events != [] {
      ClaimsAreUnique(events[..|events| - 1]);
    }
  }
}
