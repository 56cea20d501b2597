/**
  The life of one recurring journal: it is activated by an approved request,
  suspended and reactivated; runs of the scheduler, or of the manual trigger,
  read it when it is due and execute what they read, once per job.
 */
module RecurringJournals {
  import opened Wrappers
  import opened Calendar
  import opened StandingInstructions

  datatype Status = DRAFT | PENDING_APPROVAL | ACTIVE | SUSPENDED

  datatype Template = Template(frequency: Frequency, customIntervalDays: Option<int>, maxRetries: nat)

  datatype Record = Record(status: Status, nextExecutionDate: Time, consecutiveFailures: nat)

  datatype Entry = SUCCESS | FAILURE | REACTIVATION

  /**
    The record; what running jobs hold of it; handlers that have found it in
    DRAFT and not filed their request; requests for activation not resolved
    yet; the posting dates of its journals; and its history.
   */
  datatype State = State(
    record: Record, readings: seq<Option<Record>>, asking: nat, requested: nat, posted: seq<Time>, log: seq<Entry>)

  datatype Event =
    | FIND_DRAFT
    | REQUEST_ACTIVATION
    | APPROVE
    | REJECT
    | READ_DUE(now: Time)
    | EXECUTE(reading: nat, postable: bool)
    | SUSPEND
    | REACTIVATE(now: Time)

  // ---- steps ------------------------------------------------------------

  predicate Due(r: Record, now: Time) { r.status == ACTIVE && r.nextExecutionDate <= now }

  /** A failure counts towards suspension; a success posts the due date and moves on to the next one. */
  function Execute(t: Template, s: State, x: Record, postable: bool): State {
    if !postable then
      var failures := x.consecutiveFailures + 1;
      s.(record := s.record.(consecutiveFailures := failures,
                             status := if failures >= t.maxRetries then SUSPENDED else ACTIVE),
         log := s.log + [FAILURE])
    else
      s.(record := s.record.(nextExecutionDate := NextDate(x.nextExecutionDate, t.frequency, t.customIntervalDays),
                             consecutiveFailures := 0),
         posted := s.posted + [x.nextExecutionDate], log := s.log + [SUCCESS])
  }

  function SetStatus(s: State, status: Status): State { s.(record := s.record.(status := status)) }

  /** A resolution writes the status, whatever it is by then. */
  function Resolve(s: State, status: Status): State {
    if s.requested > 0 then SetStatus(s, status).(requested := s.requested - 1) else s
  }

  function Step(t: Template, s: State, e: Event): State {
    match e
    case FIND_DRAFT => if s.record.status == DRAFT then s.(asking := s.asking + 1) else s
    case REQUEST_ACTIVATION =>
      if s.asking > 0 then SetStatus(s, PENDING_APPROVAL).(asking := s.asking - 1, requested := s.requested + 1) else s
    case APPROVE => Resolve(s, ACTIVE)
    case REJECT => Resolve(s, DRAFT)
    case READ_DUE(now) => if Due(s.record, now) then s.(readings := s.readings + [Some(s.record)]) else s
    case EXECUTE(i, postable) =>
      if Executes(s, e) then Execute(t, s.(readings := s.readings[i := None]), s.readings[i].value, postable) else s
    case SUSPEND => SetStatus(s, SUSPENDED)
    case REACTIVATE(now) =>
      if s.record.status == SUSPENDED then s.(record := Record(ACTIVE, now, 0), log := s.log + [REACTIVATION]) else s
  }

  /** The job still has its reading to execute. */
  predicate Executes(s: State, e: Event) { e.EXECUTE? && e.reading < |s.readings| && s.readings[e.reading].Some? }

  function Run(t: Template, s: State, events: seq<Event>): State {
    if events == [] then s else Step(t, Run(t, s, events[..|events| - 1]), events[|events| - 1])
  }

  function Created(start: Time): State { State(Record(DRAFT, start, 0), [], 0, 0, [], []) }

  // ---- the program --------------------------------------------------------

  class RecurringJournal {
    const template: Template
    var status: Status
    var nextExecutionDate: Time
    var consecutiveFailures: nat
    var posted: seq<Time>
    var log: seq<Entry>

    constructor (template: Template, start: Time)
      ensures this.template == template && Current() == Record(DRAFT, start, 0) && posted == [] && log == []
    {
      this.template, status, nextExecutionDate, consecutiveFailures, posted, log := template, DRAFT, start, 0, [], [];
    }

    function Current(): Record
      reads this
    {
      Record(status, nextExecutionDate, consecutiveFailures)
    }

    /** One turn of the run: posts what was read as due, or counts a failure and suspends at the limit. */
    method ExecuteReading(x: Record, postable: bool)
      modifies this
      ensures var s := Execute(template, State(old(Current()), [], 0, 0, old(posted), old(log)), x, postable);
              Current() == s.record && posted == s.posted && log == s.log
      ensures postable ==>
              && posted == old(posted) + [x.nextExecutionDate] && x.nextExecutionDate < nextExecutionDate
              && nextExecutionDate == NextDate(x.nextExecutionDate, template.frequency, template.customIntervalDays)
              && consecutiveFailures == 0 && status == old(status)
      ensures !postable ==>
              (status == SUSPENDED <==> consecutiveFailures >= template.maxRetries)
              && consecutiveFailures == x.consecutiveFailures + 1
    {
      if !postable {
        consecutiveFailures := x.consecutiveFailures + 1;
        var shouldSuspend := consecutiveFailures >= template.maxRetries;
        status := if shouldSuspend then SUSPENDED else ACTIVE;
        log := log + [FAILURE];
        return;
      }
      LaterDay(template, x.nextExecutionDate);
      posted := posted + [x.nextExecutionDate];
      log := log + [SUCCESS];
      nextExecutionDate := NextDate(x.nextExecutionDate, template.frequency, template.customIntervalDays);
      consecutiveFailures := 0;
    }
  }

  lemma LaterDay(t: Template, date: Time)
    ensures date < NextDate(date, t.frequency, t.customIntervalDays)
  {
    NextDateAdvances(date, t.frequency, t.customIntervalDays);
    hide NextDate;
  }

  // ---- each due date once ---------------------------------------------------

  /** A posting finds the date it read still the next one: the guard that the update of the record does not make. */
  predicate Fits(s: State, e: Event) {
    Executes(s, e) && e.postable ==> s.readings[e.reading].value.nextExecutionDate == s.record.nextExecutionDate
  }

  predicate FittingRun(t: Template, s: State, events: seq<Event>) {
    || events == []
    || (FittingRun(t, s, events[..|events| - 1]) && Fits(Run(t, s, events[..|events| - 1]), events[|events| - 1]))
  }

  /** A reactivation comes at a moment after everything posted. */
  predicate Later(s: State, e: Event) {
    e.REACTIVATE? && s.record.status == SUSPENDED ==> forall i :: 0 <= i < |s.posted| ==> s.posted[i] < e.now
  }

  predicate LaterRun(t: Template, s: State, events: seq<Event>) {
    || events == []
    || (LaterRun(t, s, events[..|events| - 1]) && Later(Run(t, s, events[..|events| - 1]), events[|events| - 1]))
  }

  /** And no job that is still running holds a date that was not posted. */
  predicate Orderly(s: State, e: Event) {
    && Later(s, e)
    && (e.REACTIVATE? && s.record.status == SUSPENDED ==>
          forall i :: 0 <= i < |s.readings| && s.readings[i].Some? ==>
            s.readings[i].value.nextExecutionDate in s.posted)
  }

  predicate OrderlyRun(t: Template, s: State, events: seq<Event>) {
    || events == []
    || (OrderlyRun(t, s, events[..|events| - 1]) && Orderly(Run(t, s, events[..|events| - 1]), events[|events| - 1]))
  }

  ghost predicate Ascending(dates: seq<Time>) {
    forall i, j :: 0 <= i < j < |dates| ==> dates[i] < dates[j]
  }

  ghost predicate NoneTwice(dates: seq<Time>) {
    forall i, j :: 0 <= i < j < |dates| ==> dates[i] != dates[j]
  }

  /** Postings ascend to the next date. */
  ghost predicate PostingsAscend(s: State) {
    Ascending(s.posted) && (s.posted != [] ==> s.posted[|s.posted| - 1] < s.record.nextExecutionDate)
  }

  /** What running jobs hold is the next date or one already posted. */
  ghost predicate ReadingsKnown(s: State) {
    forall i :: 0 <= i < |s.readings| && s.readings[i].Some? ==>
      || s.readings[i].value.nextExecutionDate == s.record.nextExecutionDate
      || s.readings[i].value.nextExecutionDate in s.posted
  }

  lemma FittingStepAscends(t: Template, s: State, e: Event)
    requires PostingsAscend(s) && Later(s, e) && Fits(s, e)
    ensures PostingsAscend(Step(t, s, e))
  {
    hide NextDate;
    LaterDay(t, s.record.nextExecutionDate);
  }

  /** A run in which postings fit and reactivations come later posts no date twice, and in order. */
  lemma {:induction false} FittingRunsPostOnce(t: Template, start: Time, events: seq<Event>)
    requires LaterRun(t, Created(start), events) && FittingRun(t, Created(start), events)
    ensures PostingsAscend(Run(t, Created(start), events))
    ensures NoneTwice(Run(t, Created(start), events).posted)
  {
    hide Step, Fits, Later;
    if events != [] {
      FittingRunsPostOnce(t, start, events[..|events| - 1]);
      FittingStepAscends(t, Run(t, Created(start), events[..|events| - 1]), events[|events| - 1]);
    }
  }

  lemma FittingStepKeepsReadings(t: Template, s: State, e: Event)
    requires ReadingsKnown(s) && Orderly(s, e) && Fits(s, e)
    ensures ReadingsKnown(Step(t, s, e))
  {
    hide NextDate;
    if Executes(s, e) && e.postable {
      var d, r := s.record.nextExecutionDate, Step(t, s, e);
      assert r.posted[|s.posted|] == d;
      forall i | 0 <= i < |r.readings| && r.readings[i].Some?
        ensures r.readings[i].value.nextExecutionDate in r.posted
      {
        var x := s.readings[i].value.nextExecutionDate;
        assert r.readings[i] == s.readings[i] && (x in s.posted ==> x in r.posted);
      }
    }
  }

  lemma MisfitPostsTwice(t: Template, s: State, e: Event)
    requires ReadingsKnown(s) && !Fits(s, e)
    ensures !NoneTwice(Step(t, s, e).posted)
  {
    hide NextDate;
    var d, r := s.readings[e.reading].value.nextExecutionDate, Step(t, s, e);
    var k :| 0 <= k < |s.posted| && s.posted[k] == d;
    assert r.posted[k] == d == r.posted[|s.posted|];
  }

  lemma TwiceStaysTwice(t: Template, s: State, e: Event)
    requires !NoneTwice(s.posted)
    ensures !NoneTwice(Step(t, s, e).posted)
  {
    hide NextDate;
    var i, j :| 0 <= i < j < |s.posted| && s.posted[i] == s.posted[j];
    var r := Step(t, s, e).posted;
    assert r[i] == r[j];
  }

  lemma {:induction false} OrderlyIsLater(t: Template, s: State, events: seq<Event>)
    requires OrderlyRun(t, s, events)
    ensures LaterRun(t, s, events)
  {
    hide Step, Later;
    if events != [] {
      OrderlyIsLater(t, s, events[..|events| - 1]);
    }
  }

  /** A misfit somewhere in an orderly run leaves a date posted twice. */
  lemma {:induction false} MisfitRunsPostTwice(t: Template, start: Time, events: seq<Event>)
    requires OrderlyRun(t, Created(start), events)
    ensures FittingRun(t, Created(start), events) ==> ReadingsKnown(Run(t, Created(start), events))
    ensures !FittingRun(t, Created(start), events) ==> !NoneTwice(Run(t, Created(start), events).posted)
  {
    hide Step, Fits, Orderly, NoneTwice, ReadingsKnown;
    if events == [] {
      NothingHeld(start);
    } else {
      var before, e := Run(t, Created(start), events[..|events| - 1]), events[|events| - 1];
      MisfitRunsPostTwice(t, start, events[..|events| - 1]);
      if !FittingRun(t, Created(start), events[..|events| - 1]) {
        TwiceStaysTwice(t, before, e);
      } else if Fits(before, e) {
        FittingStepKeepsReadings(t, before, e);
      } else {
        MisfitPostsTwice(t, before, e);
      }
    }
  }

  lemma NothingHeld(start: Time)
    ensures ReadingsKnown(Created(start))
  {
  }

  /**
    Over any run whose reactivations are orderly, no due date is posted twice
    if and only if every posting found the date it had read still the next one.
   */
  lemma DueDatesPostedOnceWhen(t: Template, start: Time, events: seq<Event>)
    requires OrderlyRun(t, Created(start), events)
    ensures NoneTwice(Run(t, Created(start), events).posted) <==> FittingRun(t, Created(start), events)
  {
    hide NoneTwice, PostingsAscend;
    MisfitRunsPostTwice(t, start, events);
    if FittingRun(t, Created(start), events) {
      OrderlyIsLater(t, Created(start), events);
      FittingRunsPostOnce(t, start, events);
    }
  }

  predicate NoReactivation(events: seq<Event>) {
    forall i :: 0 <= i < |events| ==> !events[i].REACTIVATE?
  }

  lemma {:induction false} NoReactivationIsOrderly(t: Template, s: State, events: seq<Event>)
    requires NoReactivation(events)
    ensures OrderlyRun(t, s, events)
  {
    hide Step;
    if events != [] {
      NoReactivationIsOrderly(t, s, events[..|events| - 1]);
    }
  }

  /** For a template that is never reactivated the condition is exact as it stands. */
  lemma WithoutReactivation(t: Template, start: Time, events: seq<Event>)
    requires NoReactivation(events)
    ensures NoneTwice(Run(t, Created(start), events).posted) <==> FittingRun(t, Created(start), events)
  {
    NoReactivationIsOrderly(t, Created(start), events);
    DueDatesPostedOnceWhen(t, start, events);
  }

  /** The dates posted are the start and the next dates after it, one after the other: none is skipped. */
  ghost predicate FollowOn(t: Template, start: Time, s: State) {
    && (s.posted != [] ==> s.posted[0] == start)
    && (forall i :: 0 <= i < |s.posted| - 1 ==>
       s.posted[i + 1] == NextDate(s.posted[i], t.frequency, t.customIntervalDays))
    && s.record.nextExecutionDate
       == if s.posted == [] then start else NextDate(s.posted[|s.posted| - 1], t.frequency, t.customIntervalDays)
  }

  lemma FittingStepFollowsOn(t: Template, start: Time, s: State, e: Event)
    requires FollowOn(t, start, s) && Fits(s, e) && !e.REACTIVATE?
    ensures FollowOn(t, start, Step(t, s, e))
  {
    hide NextDate;
  }

  /** Without a reactivation, fitting postings take every due date in turn. */
  lemma {:induction false} NothingIsSkipped(t: Template, start: Time, events: seq<Event>)
    requires NoReactivation(events) && FittingRun(t, Created(start), events)
    ensures FollowOn(t, start, Run(t, Created(start), events))
  {
    hide Step, Fits;
    if events != [] {
      NothingIsSkipped(t, start, events[..|events| - 1]);
      FittingStepFollowsOn(t, start, Run(t, Created(start), events[..|events| - 1]), events[|events| - 1]);
    }
  }

  /** A job takes up the template exactly when it is active and its date has come. */
  lemma ReadWhenDue(t: Template, s: State, now: Time)
    ensures Step(t, s, READ_DUE(now))
         == if s.record.status == ACTIVE && s.record.nextExecutionDate <= now
            then s.(readings := s.readings + [Some(s.record)]) else s
  {
  }

  // ---- failures ---------------------------------------------------------

  /** Failures since the last success or reactivation. */
  function Trailing(log: seq<Entry>): nat {
    if log == [] || log[|log| - 1] != FAILURE then 0 else Trailing(log[..|log| - 1]) + 1
  }

  lemma TrailingSnoc(log: seq<Entry>, e: Entry)
    ensures Trailing(log + [e]) == if e == FAILURE then Trailing(log) + 1 else 0
  {
    assert (log + [e])[..|log|] == log;
  }

  predicate CountsRight(s: State) { s.record.consecutiveFailures == Trailing(s.log) }

  /** The count of failures in a row stays right exactly when a failing job had read the count as it still is. */
  lemma CountStaysRightWhen(t: Template, s: State, e: Event)
    requires CountsRight(s)
    ensures CountsRight(Step(t, s, e))
            <==> (Executes(s, e) && !e.postable ==>
                    s.readings[e.reading].value.consecutiveFailures == s.record.consecutiveFailures)
  {
    hide NextDate, Trailing;
    TrailingSnoc(s.log, FAILURE);
    TrailingSnoc(s.log, SUCCESS);
    TrailingSnoc(s.log, REACTIVATION);
  }

  predicate WithinLimit(t: Template, failures: nat) { failures == 0 || failures < t.maxRetries }

  /** An active template has counted fewer failures than its limit, or none. */
  predicate BelowLimit(t: Template, s: State) {
    s.record.status == ACTIVE ==> WithinLimit(t, s.record.consecutiveFailures)
  }

  /** An approval finds the count within the limit: it makes the template active and leaves the count alone. */
  predicate Timely(t: Template, s: State, e: Event) {
    e.APPROVE? && s.requested > 0 ==> WithinLimit(t, s.record.consecutiveFailures)
  }

  predicate TimelyRun(t: Template, s: State, events: seq<Event>) {
    || events == []
    || (TimelyRun(t, s, events[..|events| - 1]) && Timely(t, Run(t, s, events[..|events| - 1]), events[|events| - 1]))
  }

  predicate BelowLimitThroughout(t: Template, s: State, events: seq<Event>) {
    BelowLimit(t, Run(t, s, events)) && (events == [] || BelowLimitThroughout(t, s, events[..|events| - 1]))
  }

  lemma StepStaysBelowWhen(t: Template, s: State, e: Event)
    requires BelowLimit(t, s)
    ensures BelowLimit(t, Step(t, s, e)) <==> Timely(t, s, e)
  {
    hide NextDate;
  }

  /**
    However jobs overlap, an active template is below its limit in every state
    of a run if and only if every approval of its activation found it there.
   */
  lemma {:induction false} ActiveBelowLimitWhen(t: Template, start: Time, events: seq<Event>)
    ensures BelowLimitThroughout(t, Created(start), events) <==> TimelyRun(t, Created(start), events)
  {
    hide Step, Timely, BelowLimit;
    if events == [] {
      DraftIsBelow(t, start);
    } else {
      var before, e := Run(t, Created(start), events[..|events| - 1]), events[|events| - 1];
      ActiveBelowLimitWhen(t, start, events[..|events| - 1]);
      if BelowLimitThroughout(t, Created(start), events[..|events| - 1]) {
        StepStaysBelowWhen(t, before, e);
      }
    }
  }

  lemma DraftIsBelow(t: Template, start: Time)
    ensures BelowLimit(t, Created(start))
  {
  }

  // ---- runs that go wrong -----------------------------------------------------

  lemma RunSnoc(t: Template, s: State, events: seq<Event>, e: Event)
    ensures Run(t, s, events + [e]) == Step(t, Run(t, s, events), e)
  {
    assert (events + [e])[..|events|] == events;
  }

  const ACTIVATION: seq<Event> := [FIND_DRAFT] + [REQUEST_ACTIVATION] + [APPROVE]

  lemma Activated(t: Template, start: Time)
    ensures Run(t, Created(start), ACTIVATION) == Created(start).(record := Record(ACTIVE, start, 0))
    ensures NoReactivation(ACTIVATION)
  {
    var s := Created(start);
    assert Run(t, s, [FIND_DRAFT]) == Step(t, s, FIND_DRAFT);
    hide Run;
    RunSnoc(t, s, [FIND_DRAFT], REQUEST_ACTIVATION);
    RunSnoc(t, s, [FIND_DRAFT] + [REQUEST_ACTIVATION], APPROVE);
  }

  /** Two jobs that both read the template while it was due post its due date twice. */
  lemma OverlappingJobsPostTwice(t: Template, start: Time)
    ensures var events := ACTIVATION + [READ_DUE(start)] + [READ_DUE(start)] + [EXECUTE(0, true)] + [EXECUTE(1, true)];
            Run(t, Created(start), events).posted == [start, start]
  {
    hide NextDate, Run, ACTIVATION;
    var s, e := Created(start), ACTIVATION + [READ_DUE(start)];
    Activated(t, start);
    RunSnoc(t, s, ACTIVATION, READ_DUE(start));
    RunSnoc(t, s, e, READ_DUE(start));
    RunSnoc(t, s, e + [READ_DUE(start)], EXECUTE(0, true));
    RunSnoc(t, s, e + [READ_DUE(start)] + [EXECUTE(0, true)], EXECUTE(1, true));
  }

  /** And one job after the other does so when the template is reactivated at a date already posted. */
  lemma EarlyReactivationPostsTwice(t: Template, start: Time)
    ensures var events := ACTIVATION + [READ_DUE(start)] + [EXECUTE(0, true)] + [SUSPEND] + [REACTIVATE(start)]
                          + [READ_DUE(start)] + [EXECUTE(1, true)];
            Run(t, Created(start), events).posted == [start, start]
  {
    hide NextDate, Run, ACTIVATION;
    var s, e := Created(start), ACTIVATION + [READ_DUE(start)];
    Activated(t, start);
    RunSnoc(t, s, ACTIVATION, READ_DUE(start));
    RunSnoc(t, s, e, EXECUTE(0, true));
    RunSnoc(t, s, e + [EXECUTE(0, true)], SUSPEND);
    RunSnoc(t, s, e + [EXECUTE(0, true)] + [SUSPEND], REACTIVATE(start));
    RunSnoc(t, s, e + [EXECUTE(0, true)] + [SUSPEND] + [REACTIVATE(start)], READ_DUE(start));
    RunSnoc(t, s, e + [EXECUTE(0, true)] + [SUSPEND] + [REACTIVATE(start)] + [READ_DUE(start)], EXECUTE(1, true));
  }

  /**
    A job that holds an unposted date over a later reactivation: its posting does
    not fit, and still no date is posted twice.
   */
  lemma HeldOverReactivation(t: Template, start: Time, now: Time)
    requires start < now
    ensures var events := ACTIVATION + [READ_DUE(start)] + [SUSPEND] + [REACTIVATE(now)] + [EXECUTE(0, true)];
            && LaterRun(t, Created(start), events) && !FittingRun(t, Created(start), events)
            && NoneTwice(Run(t, Created(start), events).posted)
  {
    hide NextDate, Run, ACTIVATION;
    var s, e := Created(start), ACTIVATION + [READ_DUE(start)];
    Activated(t, start);
    RunSnoc(t, s, ACTIVATION, READ_DUE(start));
    RunSnoc(t, s, e, SUSPEND);
    RunSnoc(t, s, e + [SUSPEND], REACTIVATE(now));
    RunSnoc(t, s, e + [SUSPEND] + [REACTIVATE(now)], EXECUTE(0, true));
    NoReactivationIsOrderly(t, s, e + [SUSPEND]);
    OrderlyIsLater(t, s, e + [SUSPEND]);
    var reactivated := e + [SUSPEND] + [REACTIVATE(now)];
    assert reactivated[..|reactivated| - 1] == e + [SUSPEND];
    assert (reactivated + [EXECUTE(0, true)])[..|reactivated|] == reactivated;
  }

  /** One job after the other reads the template and fails. */
  function FailingJobs(date: Time, n: nat): (events: seq<Event>)
    ensures NoReactivation(events)
  {
    if n == 0 then [] else FailingJobs(date, n - 1) + [READ_DUE(date)] + [EXECUTE(n - 1, false)]
  }

  lemma {:induction false} FailsInARow(t: Template, s: State, prefix: seq<Event>, n: nat)
    requires n <= t.maxRetries
    requires var a := Run(t, s, prefix);
             a.record.status == ACTIVE && a.record.consecutiveFailures == 0 && a.readings == []
    ensures var a := Run(t, s, prefix);
            var b := Run(t, s, prefix + FailingJobs(a.record.nextExecutionDate, n));
            && b.record == a.record.(consecutiveFailures := n,
                                     status := if 0 < n == t.maxRetries then SUSPENDED else ACTIVE)
            && |b.readings| == n && (forall i :: 0 <= i < n ==> b.readings[i].None?)
            && b.posted == a.posted && b.requested == a.requested
  {
    hide NextDate, Run;
    var date := Run(t, s, prefix).record.nextExecutionDate;
    if n == 0 {
      assert prefix + FailingJobs(date, 0) == prefix;
    } else {
      FailsInARow(t, s, prefix, n - 1);
      var e := prefix + FailingJobs(date, n - 1);
      assert prefix + FailingJobs(date, n) == e + [READ_DUE(date)] + [EXECUTE(n - 1, false)];
      RunSnoc(t, s, e, READ_DUE(date));
      RunSnoc(t, s, e + [READ_DUE(date)], EXECUTE(n - 1, false));
    }
  }

  /**
    A template that failed up to its limit and is then reactivated is back in
    service, in an orderly run, whatever the moment.
   */
  lemma FailedThenReactivated(t: Template, start: Time, now: Time)
    requires t.maxRetries > 0
    ensures var events := ACTIVATION + FailingJobs(start, t.maxRetries) + [REACTIVATE(now)];
            OrderlyRun(t, Created(start), events) && Run(t, Created(start), events).record == Record(ACTIVE, now, 0)
  {
    hide NextDate, Run, FailingJobs;
    var s, e := Created(start), ACTIVATION + FailingJobs(start, t.maxRetries);
    Activated(t, start);
    FailsInARow(t, s, ACTIVATION, t.maxRetries);
    RunSnoc(t, s, e, REACTIVATE(now));
    NoReactivationIsOrderly(t, s, e);
    assert (e + [REACTIVATE(now)])[..|e|] == e;
  }

  /** An approval that comes after a suspension and a reactivation can leave an active template at its limit. */
  lemma LateApprovalIsAtLimit(t: Template, start: Time)
    requires t.maxRetries > 0
    ensures var events := [FIND_DRAFT] + [REQUEST_ACTIVATION] + [SUSPEND] + [REACTIVATE(start)]
                          + FailingJobs(start, t.maxRetries) + [APPROVE];
            Run(t, Created(start), events).record == Record(ACTIVE, start, t.maxRetries)
  {
    var s, e := Created(start), [FIND_DRAFT] + [REQUEST_ACTIVATION] + [SUSPEND] + [REACTIVATE(start)];
    assert Run(t, s, [FIND_DRAFT]) == Step(t, s, FIND_DRAFT);
    hide NextDate, Run, FailingJobs;
    RunSnoc(t, s, [FIND_DRAFT], REQUEST_ACTIVATION);
    RunSnoc(t, s, [FIND_DRAFT] + [REQUEST_ACTIVATION], SUSPEND);
    RunSnoc(t, s, [FIND_DRAFT] + [REQUEST_ACTIVATION] + [SUSPEND], REACTIVATE(start));
    FailsInARow(t, s, e, t.maxRetries);
    RunSnoc(t, s, e + FailingJobs(start, t.maxRetries), APPROVE);
  }
}
