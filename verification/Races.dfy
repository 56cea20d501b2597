/** Two more runs in which a check is overtaken before its write: periods that overlap, and a customer merged twice. */
module Races {
  import opened Wrappers
  import opened Calendar
  import opened LedgerBooks
  import opened CashDesk
  import opened Handlers
  import opened Approvals
  import opened Institution
  import opened CustomerMerge

  // ---- overlapping periods --------------------------------------------------

  const TWO_PERIODS: seq<Event> := [
    ADMIT(CHANGE(CREATE_PERIOD(0, 10))), ADMIT(CHANGE(CREATE_PERIOD(5, 15))), WRITE(0), WRITE(1)]

  /** Both checks pass before either period is written; afterwards two periods cover one date. */
  lemma PeriodsCanOverlap(crm: Crm)
    ensures Run(Initial(crm), TWO_PERIODS).holdings.books.periods == [Period(0, 10, OPEN), Period(5, 15, OPEN)]
    ensures !NoOverlap(Run(Initial(crm), TWO_PERIODS).holdings.books.periods)
  {
    hide Run;
    var s := Initial(crm);
    RunNone(s);
    assert TWO_PERIODS[..0] == [] && TWO_PERIODS[..4] == TWO_PERIODS;
    RunTwo(s, TWO_PERIODS, 0);
    RunTwo(s, TWO_PERIODS, 2);
    var s2 := Run(s, TWO_PERIODS[..2]);
    assert s2.admitted == [CHANGE(CREATE_PERIOD(0, 10)), CHANGE(CREATE_PERIOD(5, 15))]
           && s2.holdings.books.periods == [];
    var periods := Run(s, TWO_PERIODS).holdings.books.periods;
    assert Overlap(periods[0], periods[1].startDate, periods[1].endDate);
  }

  // ---- a customer merged twice ----------------------------------------------

  const MERGED_ONCE: seq<Event> := [
    ADMIT(REQUEST(CUSTOMER_MERGE(0, 1), 7)), ADMIT(REQUEST(CUSTOMER_MERGE(2, 1), 7)), WRITE(0), WRITE(1),
    READ_REQUEST(0, 8, Approve), READ_REQUEST(1, 8, Approve)]

  /** Three customers of whom none is merged. */
  predicate ThreeActive(crm: Crm) {
    |crm.customers| == 3 && forall i :: 0 <= i < 3 ==> crm.customers[i] == Customer(ACTIVE, None)
  }

  function MergeRequest(primary: nat): Request {
    Request(CUSTOMER_MERGE(primary, 1), 7, PENDING, None)
  }

  /** Two requests to merge customer 1, into 0 and into 2, are filed and read by the same approver. */
  lemma BothMergesRead(crm: Crm)
    requires ThreeActive(crm)
    ensures Run(Initial(crm), MERGED_ONCE)
         == Initial(crm).(requests := [MergeRequest(0), MergeRequest(2)],
                          admitted := [REQUEST(CUSTOMER_MERGE(0, 1), 7), REQUEST(CUSTOMER_MERGE(2, 1), 7)],
                          sessions := [Session(0, 8, Approve), Session(1, 8, Approve)])
  {
    hide Run;
    var s := Initial(crm);
    RunNone(s);
    assert MERGED_ONCE[..0] == [] && MERGED_ONCE[..6] == MERGED_ONCE;
    RunTwo(s, MERGED_ONCE, 0);
    RunTwo(s, MERGED_ONCE, 2);
    RunTwo(s, MERGED_ONCE, 4);
    BothAdmitted(crm);
    hide Next;
  }

  lemma BothAdmitted(crm: Crm)
    requires ThreeActive(crm)
    ensures var s := Initial(crm);
            var s2 := s.(admitted := [REQUEST(CUSTOMER_MERGE(0, 1), 7), REQUEST(CUSTOMER_MERGE(2, 1), 7)]);
            var s4 := s2.(requests := [MergeRequest(0), MergeRequest(2)]);
            && Next(Next(s, MERGED_ONCE[0]), MERGED_ONCE[1]) == s2
            && Next(Next(s2, MERGED_ONCE[2]), MERGED_ONCE[3]) == s4
            && Next(Next(s4, MERGED_ONCE[4]), MERGED_ONCE[5])
               == s4.(sessions := [Session(0, 8, Approve), Session(1, 8, Approve)])
  {
  }

  /** The first approval merges customer 1 into 0; the second, into 2, finds nothing that stops it. */
  lemma BothMergesApproved(crm: Crm, env: Env)
    requires ThreeActive(crm)
    ensures var first := Run(Initial(crm), MERGED_ONCE + [COMMIT(0, env)]);
            var second := Run(Initial(crm), MERGED_ONCE + [COMMIT(0, env)] + [COMMIT(1, env)]);
            && first.holdings.crm == Execute(crm, 0, 1)
            && second.holdings.crm == Execute(first.holdings.crm, 2, 1)
            && IsApproved(second, 0) && IsApproved(second, 1)
  {
    hide Run, Execute;
    BothMergesRead(crm);
    RunSnoc(Initial(crm), MERGED_ONCE, COMMIT(0, env));
    RunSnoc(Initial(crm), MERGED_ONCE + [COMMIT(0, env)], COMMIT(1, env));
    assert |Execute(crm, 0, 1).customers| == 3 by { MergedCustomers(crm, 0, 1); }
  }

  /** So rolling the second merge back leaves customer 1 active, although it was merged into 0 before. */
  lemma SecondMergeCannotBeUndone(crm: Crm, env: Env)
    requires ThreeActive(crm)
    ensures var before := Run(Initial(crm), MERGED_ONCE + [COMMIT(0, env)]).holdings.crm;
            var after := Run(Initial(crm), MERGED_ONCE + [COMMIT(0, env)] + [COMMIT(1, env)]).holdings.crm;
            && |after.customers| == 3
            && var list := Captured(before.tables, 1, |before.tables|);
               && AllExist(after.tables, list)
               && Rollback(after, 1, list).customers[1] == Customer(ACTIVE, None)
               && before.customers[1] == Customer(MERGED, Some(0))
               && Rollback(after, 1, list) != before
  {
    hide Run, Execute, Captured, WriteBack;
    BothMergesApproved(crm, env);
    MergedCustomers(crm, 0, 1);
    var before := Execute(crm, 0, 1);
    MergedCustomers(before, 2, 1);
    var none := NoneCreated(|before.tables|);
    CapturedExist(before, 2, 1, none);
    GrowNothing(Execute(before, 2, 1).tables, none);
  }

  function NoneCreated(n: nat): (extra: seq<seq<nat>>)
    ensures |extra| == n && forall k :: 0 <= k < n ==> extra[k] == []
  {
    seq(n, _ => [])
  }
}
