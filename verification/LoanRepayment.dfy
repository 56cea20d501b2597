/** Recording a repayment on a loan, live and by migration of its full history. */
module LoanRepayment {
  import opened Money
  import opened RepaymentAllocation

  datatype LoanStatus = PENDING | APPROVED | DISBURSED | ACTIVE | CLOSED | REJECTED | DEFAULTED | WRITTEN_OFF

  ghost predicate DistinctIds(rows: seq<InstallmentState>) {
    forall i, j :: 0 <= i < j < |rows| ==> rows[i].id != rows[j].id
  }

  // ---- writing the changes back to the stored rows ------------------------

  function WriteRow(rows: seq<InstallmentState>, u: AllocationUpdate): (r: seq<InstallmentState>)
    ensures |r| == |rows|
  {
    if rows == [] then []
    else
      [if rows[0].id == u.id
       then rows[0].(interestPaid := u.newInterestPaid, principalPaid := u.newPrincipalPaid, status := u.newStatus)
       else rows[0]] + WriteRow(rows[1..], u)
  }

  function WriteRows(rows: seq<InstallmentState>, updates: seq<AllocationUpdate>): seq<InstallmentState>
    decreases |updates|
  {
    if updates == [] then rows else WriteRows(WriteRow(rows, updates[0]), updates[1..])
  }

  ghost predicate NamesNone(rows: seq<InstallmentState>, id: nat) {
    forall i :: 0 <= i < |rows| ==> rows[i].id != id
  }

  lemma {:induction false} WriteElsewhere(rows: seq<InstallmentState>, u: AllocationUpdate)
    requires NamesNone(rows, u.id)
    ensures WriteRow(rows, u) == rows
  {
    if rows != [] {
      WriteElsewhere(rows[1..], u);
    }
  }

  lemma {:induction false} WriteBehind(h: InstallmentState, t: seq<InstallmentState>, updates: seq<AllocationUpdate>)
    requires forall i :: 0 <= i < |updates| ==> updates[i].id != h.id
    ensures WriteRows([h] + t, updates) == [h] + WriteRows(t, updates)
    decreases |updates|
  {
    if updates != [] {
      var u := updates[0];
      assert ([h] + t)[1..] == t;
      assert WriteRow([h] + t, u) == [h] + WriteRow(t, u);
      WriteBehind(h, WriteRow(t, u), updates[1..]);
    }
  }

  lemma {:induction false} UpdatesNameRows(rows: seq<InstallmentState>, amount: int, id: nat)
    requires NamesNone(rows, id)
    ensures forall i :: 0 <= i < |Updates(rows, amount)| ==> Updates(rows, amount)[i].id != id
  {
    if rows != [] && amount > 0 {
      UpdatesNameRows(rows[1..], amount - Min(amount, Absorbs(rows[0])), id);
    }
  }

  /** Writing the reported changes by id stores exactly what the allocation left in memory. */
  lemma {:induction false} UpdatesPersistAllocation(rows: seq<InstallmentState>, amount: int)
    requires DistinctIds(rows)
    ensures WriteRows(rows, Updates(rows, amount)) == Allocate(rows, amount)
  {
    hide Pay, Absorbs, Allocate, Updates;
    if rows == [] || amount <= 0 {
      AllocateStops(rows, amount);
    } else {
      var h, t := rows[0], rows[1..];
      assert rows == [h] + t;
      var x := Min(amount, Absorbs(h));
      AllocateCons(h, t, amount);
      UpdatesPersistAllocation(t, amount - x);
      assert NamesNone(t, h.id);
      UpdatesNameRows(t, amount - x, h.id);
      var rest := Updates(t, amount - x);
      if x > 0 {
        var u := UpdateOf(Pay(h, x));
        PayKeeps(h, x);
        WriteElsewhere(t, u);
        assert WriteRow(rows, u) == [Pay(h, x)] + t;
        assert ([u] + rest)[1..] == rest;
        WriteBehind(Pay(h, x), t, rest);
      } else {
        assert [] + rest == rest;
        PayKeeps(h, x);
        WriteBehind(h, t, rest);
      }
    }
  }

  lemma PayKeeps(s: InstallmentState, x: nat)
    ensures var p := Pay(s, x);
            && (x == 0 ==> p == s)
            && p == s.(interestPaid := p.interestPaid, principalPaid := p.principalPaid, status := p.status)
  {
  }

  // ---- the loan ---------------------------------------------------------

  function StatusAfter(status: LoanStatus, rows: seq<InstallmentState>): LoanStatus {
    if AllPaid(rows) then CLOSED else if status == DISBURSED then ACTIVE else status
  }

  /** A loan with the stored rows of its installments, in installment order, and its repayments. */
  class Loan {
    var status: LoanStatus
    var rows: seq<InstallmentState>
    var repayments: seq<int>

    constructor (rows: seq<InstallmentState>)
      ensures status == DISBURSED && this.rows == rows && repayments == []
    {
      status, this.rows, repayments := DISBURSED, rows, [];
    }

    method ApplyLoanRepayment(amount: int) returns (loanClosed: bool)
      requires DistinctIds(rows)
      modifies this
      ensures repayments == old(repayments) + [amount]
      ensures rows == Allocate(old(rows), amount)
      ensures loanClosed == AllPaid(rows)
      ensures status == StatusAfter(old(status), rows)
      ensures loanClosed <==> |rows| > 0 && forall i :: 0 <= i < |rows| ==> rows[i].status == PAID
      ensures status == if loanClosed then CLOSED else if old(status) == DISBURSED then ACTIVE else old(status)
    {
      repayments := repayments + [amount];
      var states := LoadStates(rows);
      var updates := AllocateRepayment(states, amount);
      ghost var before := rows;
      var i := 0;
      while i < |updates|
        invariant 0 <= i <= |updates|
        invariant WriteRows(rows, updates[i..]) == WriteRows(before, updates)
        invariant status == old(status) && repayments == old(repayments) + [amount]
      {
        assert updates[i..][0] == updates[i] && updates[i..][1..] == updates[i + 1..];
        rows := WriteRow(rows, updates[i]);
        i := i + 1;
      }
      UpdatesPersistAllocation(before, amount);
      loanClosed := AllPaid(rows);
      if loanClosed {
        status := CLOSED;
      } else if status == DISBURSED {
        status := ACTIVE;
      }
    }
  }

  /** Fresh in-memory copies of the rows, one object each. */
  method LoadStates(rows: seq<InstallmentState>) returns (states: seq<Installment>)
    ensures fresh(states) && Distinct(states) && States(states) == rows
  {
    states := [];
    for i := 0 to |rows|
      invariant |states| == i && fresh(states) && Distinct(states)
      invariant forall j :: 0 <= j < i ==> states[j].State() == rows[j]
    {
      var s := new Installment(rows[i].id, rows[i].interestDue, rows[i].principalDue);
      s.interestPaid, s.principalPaid, s.status := rows[i].interestPaid, rows[i].principalPaid, rows[i].status;
      states := states + [s];
    }
  }

  // ---- histories --------------------------------------------------------

  datatype LoanState = LoanState(status: LoanStatus, rows: seq<InstallmentState>)

  /** Live repayments, one transaction after the other. */
  function LiveRun(s: LoanState, amounts: seq<int>): LoanState
    decreases |amounts|
  {
    if amounts == [] then s
    else
      var rows := Allocate(s.rows, amounts[0]);
      LiveRun(LoanState(StatusAfter(s.status, rows), rows), amounts[1..])
  }

  /** The full-history import: allocate every repayment in memory, settle the loan's status once at the end. */
  method MigrateHistory(rows: seq<InstallmentState>, amounts: seq<int>) returns (s: LoanState)
    requires DistinctIds(rows) && Unpaid(rows)
    requires forall i :: 0 <= i < |amounts| ==> amounts[i] > 0
    ensures s == LiveRun(LoanState(DISBURSED, rows), amounts)
  {
    hide Allocate, Updates, WriteRows, LiveRun, AllPaid;
    var installmentStates := LoadStates(rows);
    hide States;
    var stored := rows;
    for k := 0 to |amounts|
      invariant fresh(installmentStates) && Distinct(installmentStates) && DistinctIds(stored)
      invariant States(installmentStates) == stored
      invariant AllocateAll(stored, amounts[k..]) == AllocateAll(rows, amounts)
    {
      assert amounts[k..][0] == amounts[k] && amounts[k..][1..] == amounts[k + 1..];
      var updates := AllocateRepayment(installmentStates, amounts[k]);
      UpdatesPersistAllocation(stored, amounts[k]);
      AllocateKeepsIds(stored, amounts[k]);
      stored := WriteRows(stored, updates);
    }
    var status := DISBURSED;
    if AllPaid(States(installmentStates)) {
      status := CLOSED;
    } else if |amounts| > 0 {
      status := ACTIVE;
    }
    s := LoanState(status, stored);
    MigrationAgreesWithLive(rows, amounts);
  }

  lemma {:induction false} AllocateKeepsIds(rows: seq<InstallmentState>, amount: int)
    ensures forall i :: 0 <= i < |rows| ==> Allocate(rows, amount)[i].id == rows[i].id
  {
    if rows != [] && amount > 0 {
      AllocateKeepsIds(rows[1..], amount - Min(amount, Absorbs(rows[0])));
    }
  }

  /** What a migrated history must be: one settlement at the end instead of one per repayment. */
  function Migrated(rows: seq<InstallmentState>, amounts: seq<int>): LoanState {
    var after := AllocateAll(rows, amounts);
    LoanState(if AllPaid(after) then CLOSED else if |amounts| > 0 then ACTIVE else DISBURSED, after)
  }

  predicate MarkedRight(rows: seq<InstallmentState>) {
    forall i :: 0 <= i < |rows| ==> rows[i].status == PAID ==> FullyPaid(rows[i])
  }

  /** An installment once PAID stays PAID, so a closed loan stays closed under further repayments. */
  lemma ClosedStaysClosed(rows: seq<InstallmentState>, amount: int)
    requires MarkedRight(rows) && amount >= 0
    ensures MarkedRight(Allocate(rows, amount))
    ensures AllPaid(rows) ==> AllPaid(Allocate(rows, amount))
  {
    PaidTotalRises(rows, amount);
    var r := Allocate(rows, amount);
    forall i | 0 <= i < |r|
      ensures r[i].status == PAID ==> FullyPaid(r[i])
      ensures rows[i].status == PAID ==> r[i].status == PAID
    {
      assert Monotone(rows[i], r[i]);
    }
  }

  lemma {:induction false} LiveRunMeans(s: LoanState, amounts: seq<int>)
    requires MarkedRight(s.rows) && forall i :: 0 <= i < |amounts| ==> amounts[i] > 0
    requires s.status in {DISBURSED, ACTIVE, CLOSED} && (s.status == CLOSED <==> AllPaid(s.rows))
    ensures LiveRun(s, amounts).rows == AllocateAll(s.rows, amounts)
    ensures LiveRun(s, amounts).status
         == if AllPaid(AllocateAll(s.rows, amounts)) then CLOSED else if |amounts| > 0 then ACTIVE else s.status
    decreases |amounts|
  {
    if amounts != [] {
      ClosedStaysClosed(s.rows, amounts[0]);
      var rows := Allocate(s.rows, amounts[0]);
      LiveRunMeans(LoanState(StatusAfter(s.status, rows), rows), amounts[1..]);
    }
  }

  /**
    Migration agrees with live repayments: importing a history of repayments
    leaves the rows and the status that recording them one by one would have
    left, and both depend only on the sum.
   */
  lemma MigrationAgreesWithLive(rows: seq<InstallmentState>, amounts: seq<int>)
    requires Unpaid(rows) && forall i :: 0 <= i < |amounts| ==> amounts[i] > 0
    ensures LiveRun(LoanState(DISBURSED, rows), amounts) == Migrated(rows, amounts)
    ensures Sum(amounts) >= 0 && Migrated(rows, amounts).rows == Allocate(rows, Sum(amounts))
  {
    assert |rows| > 0 ==> rows[0].status == RepaymentAllocation.PENDING;
    LiveRunMeans(LoanState(DISBURSED, rows), amounts);
    ReplayIsOneAllocation(rows, amounts);
  }

  /** On an exact schedule the loan is closed precisely from the total due less one cent on. */
  lemma LoanClosesOnTime(rows: seq<InstallmentState>, amounts: seq<int>)
    requires Unpaid(rows) && ExactSchedule(rows) && forall i :: 0 <= i < |amounts| ==> amounts[i] > 0
    ensures LiveRun(LoanState(DISBURSED, rows), amounts).status == CLOSED <==> Sum(amounts) >= TotalDue(rows) - 1
  {
    MigrationAgreesWithLive(rows, amounts);
    ExactScheduleCloses(rows, Sum(amounts));
  }
}
