/** Arrears of a loan on a date: how much is overdue and for how long. */
module Arrears {
  import opened Money
  import opened Calendar
  import opened RepaymentAllocation

  datatype Classification = CURRENT | ARREARS_1_30 | ARREARS_31_60 | ARREARS_61_90 | ARREARS_90_PLUS

  /** An installment as the arrears check reads it; `totalDue` is stored when the schedule is made. */
  datatype ArrearsInstallment = ArrearsInstallment(dueDate: Time, totalDue: int, principalPaid: int, interestPaid: int)

  datatype ArrearsResult = ArrearsResult(daysInArrears: int, arrearsAmount: int, classification: Classification)

  function Classify(days: int): Classification {
    if days <= 0 then CURRENT
    else if days <= 30 then ARREARS_1_30
    else if days <= 60 then ARREARS_31_60
    else if days <= 90 then ARREARS_61_90
    else ARREARS_90_PLUS
  }

  function Severity(c: Classification): nat {
    match c
    case CURRENT => 0
    case ARREARS_1_30 => 1
    case ARREARS_31_60 => 2
    case ARREARS_61_90 => 3
    case ARREARS_90_PLUS => 4
  }

  /** Past its due date and short by more than one cent. */
  predicate Overdue(i: ArrearsInstallment, asOf: Time) {
    i.dueDate < asOf && i.principalPaid + i.interestPaid < i.totalDue - 1
  }

  function OverdueOf(installments: seq<ArrearsInstallment>, asOf: Time): (r: seq<ArrearsInstallment>)
    ensures forall i :: 0 <= i < |r| ==> Overdue(r[i], asOf)
  {
    if installments == [] then []
    else (if Overdue(installments[0], asOf) then [installments[0]] else []) + OverdueOf(installments[1..], asOf)
  }

  function OldestDue(overdue: seq<ArrearsInstallment>, min: Time): Time {
    if overdue == [] then min
    else OldestDue(overdue[1..], if overdue[0].dueDate < min then overdue[0].dueDate else min)
  }

  function OutstandingOf(overdue: seq<ArrearsInstallment>): nat {
    if overdue == [] then 0
    else Max(0, overdue[0].totalDue - overdue[0].principalPaid - overdue[0].interestPaid) + OutstandingOf(overdue[1..])
  }

  function CalculateArrears(installments: seq<ArrearsInstallment>, asOf: Time): ArrearsResult {
    var overdue := OverdueOf(installments, asOf);
    if overdue == [] then ArrearsResult(0, 0, CURRENT)
    else
      var oldestDue := OldestDue(overdue, overdue[0].dueDate);
      var daysInArrears := (asOf - oldestDue) / MS_PER_DAY;
      ArrearsResult(daysInArrears, OutstandingOf(overdue), Classify(daysInArrears))
  }

  // ---- an independent reading -------------------------------------------

  /** Sum over the whole loan of what each overdue installment is short. */
  function Shortfall(installments: seq<ArrearsInstallment>, asOf: Time): nat {
    if installments == [] then 0
    else
      var short := installments[0].totalDue - installments[0].principalPaid - installments[0].interestPaid;
      (if asOf > installments[0].dueDate && short > 1 then short else 0) + Shortfall(installments[1..], asOf)
  }

  /** Whole days since the due date of one overdue installment, zero if it is not overdue. */
  function DaysLate(i: ArrearsInstallment, asOf: Time): nat {
    if asOf > i.dueDate && i.totalDue - i.principalPaid - i.interestPaid > 1 then (asOf - i.dueDate) / MS_PER_DAY else 0
  }

  function WorstDays(installments: seq<ArrearsInstallment>, asOf: Time): nat {
    if installments == [] then 0 else Max(DaysLate(installments[0], asOf), WorstDays(installments[1..], asOf))
  }

  lemma {:induction false} OldestIsWorst(overdue: seq<ArrearsInstallment>, min: Time, asOf: Time)
    requires min < asOf && forall i :: 0 <= i < |overdue| ==> Overdue(overdue[i], asOf)
    ensures OldestDue(overdue, min) < asOf
    ensures (asOf - OldestDue(overdue, min)) / MS_PER_DAY == Max((asOf - min) / MS_PER_DAY, WorstDays(overdue, asOf))
  {
    if overdue != [] {
      var m := if overdue[0].dueDate < min then overdue[0].dueDate else min;
      OldestIsWorst(overdue[1..], m, asOf);
    }
  }

  lemma {:induction false} OverdueReading(installments: seq<ArrearsInstallment>, asOf: Time)
    ensures OutstandingOf(OverdueOf(installments, asOf)) == Shortfall(installments, asOf)
    ensures WorstDays(OverdueOf(installments, asOf), asOf) == WorstDays(installments, asOf)
    ensures OverdueOf(installments, asOf) == [] ==> WorstDays(installments, asOf) == 0
  {
    if installments != [] {
      OverdueReading(installments[1..], asOf);
      var rest := OverdueOf(installments[1..], asOf);
      if Overdue(installments[0], asOf) {
        assert ([installments[0]] + rest)[1..] == rest;
      } else {
        assert [] + rest == rest;
      }
    }
  }

  /** The filter, the minimum and the sums of the check, read installment by installment. */
  lemma ArrearsReading(installments: seq<ArrearsInstallment>, asOf: Time)
    ensures CalculateArrears(installments, asOf)
         == ArrearsResult(WorstDays(installments, asOf), Shortfall(installments, asOf),
                          Classify(WorstDays(installments, asOf)))
    ensures var days, c := WorstDays(installments, asOf), CalculateArrears(installments, asOf).classification;
            && (c == CURRENT <==> days == 0) && (c == ARREARS_1_30 <==> 1 <= days <= 30)
            && (c == ARREARS_31_60 <==> 31 <= days <= 60) && (c == ARREARS_61_90 <==> 61 <= days <= 90)
            && (c == ARREARS_90_PLUS <==> days > 90)
  {
    OverdueReading(installments, asOf);
    var overdue := OverdueOf(installments, asOf);
    if overdue != [] {
      OldestIsWorst(overdue, overdue[0].dueDate, asOf);
    }
  }

  // ---- monotonicity -----------------------------------------------------

  /** The same installments, later paid at least as much. */
  ghost predicate PaidMore(before: seq<ArrearsInstallment>, after: seq<ArrearsInstallment>) {
    && |before| == |after|
    && forall i :: 0 <= i < |before| ==>
         && after[i].dueDate == before[i].dueDate && after[i].totalDue == before[i].totalDue
         && before[i].principalPaid + before[i].interestPaid <= after[i].principalPaid + after[i].interestPaid
  }

  ghost predicate NoWorse(a: ArrearsResult, b: ArrearsResult) {
    a.daysInArrears <= b.daysInArrears && a.arrearsAmount <= b.arrearsAmount
      && Severity(a.classification) <= Severity(b.classification)
  }

  lemma {:induction false} PayingHelps(before: seq<ArrearsInstallment>, after: seq<ArrearsInstallment>, asOf: Time)
    requires PaidMore(before, after)
    ensures WorstDays(after, asOf) <= WorstDays(before, asOf) && Shortfall(after, asOf) <= Shortfall(before, asOf)
  {
    if before != [] {
      PayingHelps(before[1..], after[1..], asOf);
    }
  }

  lemma {:induction false} WaitingHurts(installments: seq<ArrearsInstallment>, asOf: Time, later: Time)
    requires asOf <= later
    ensures WorstDays(installments, asOf) <= WorstDays(installments, later)
    ensures Shortfall(installments, asOf) <= Shortfall(installments, later)
  {
    if installments != [] {
      WaitingHurts(installments[1..], asOf, later);
    }
  }

  /** A loan's rows as the arrears check reads them. */
  function ArrearsView(rows: seq<InstallmentState>, dueDates: seq<Time>): (r: seq<ArrearsInstallment>)
    requires |rows| == |dueDates|
    ensures |r| == |rows|
  {
    seq(|rows|, i requires 0 <= i < |rows| =>
      ArrearsInstallment(dueDates[i], rows[i].interestDue + rows[i].principalDue, rows[i].principalPaid,
        rows[i].interestPaid))
  }

  /** What the rows of a loan that are past due by more than a cent are short, interest and principal together. */
  function RowsShort(rows: seq<InstallmentState>, dueDates: seq<Time>, asOf: Time): int
    requires |rows| == |dueDates|
  {
    if rows == [] then 0
    else
      var short := rows[0].interestDue + rows[0].principalDue - rows[0].interestPaid - rows[0].principalPaid;
      (if asOf > dueDates[0] && short > 1 then short else 0) + RowsShort(rows[1..], dueDates[1..], asOf)
  }

  lemma {:induction false} ShortRows(rows: seq<InstallmentState>, dueDates: seq<Time>, asOf: Time)
    requires |rows| == |dueDates|
    ensures Shortfall(ArrearsView(rows, dueDates), asOf) == RowsShort(rows, dueDates, asOf)
  {
    if rows != [] {
      ShortRows(rows[1..], dueDates[1..], asOf);
      assert ArrearsView(rows, dueDates)[1..] == ArrearsView(rows[1..], dueDates[1..]);
    }
  }

  /** The amount in arrears of a loan, from its rows. */
  lemma LoanArrears(rows: seq<InstallmentState>, dueDates: seq<Time>, asOf: Time)
    requires |rows| == |dueDates|
    ensures CalculateArrears(ArrearsView(rows, dueDates), asOf).arrearsAmount == RowsShort(rows, dueDates, asOf)
  {
    hide CalculateArrears, RowsShort, ArrearsView;
    ArrearsReading(ArrearsView(rows, dueDates), asOf);
    ShortRows(rows, dueDates, asOf);
  }

  /** A repayment never increases days or amount in arrears, nor worsens the classification. */
  lemma RepaymentNeverWorsensArrears(rows: seq<InstallmentState>, dueDates: seq<Time>, amount: int, asOf: Time)
    requires |rows| == |dueDates| && amount >= 0
    ensures NoWorse(CalculateArrears(ArrearsView(Allocate(rows, amount), dueDates), asOf),
            CalculateArrears(ArrearsView(rows, dueDates), asOf))
  {
    hide CalculateArrears;
    var before, after := ArrearsView(rows, dueDates), ArrearsView(Allocate(rows, amount), dueDates);
    PaidTotalRises(rows, amount);
    forall i | 0 <= i < |rows|
      ensures after[i].dueDate == before[i].dueDate && after[i].totalDue == before[i].totalDue
      ensures before[i].principalPaid + before[i].interestPaid <= after[i].principalPaid + after[i].interestPaid
    {
      assert Monotone(rows[i], Allocate(rows, amount)[i]);
    }
    PayingHelps(before, after, asOf);
    ArrearsReading(before, asOf);
    ArrearsReading(after, asOf);
  }

  /** Without repayments, arrears never fall as time goes on. */
  lemma ArrearsNeverFall(installments: seq<ArrearsInstallment>, asOf: Time, later: Time)
    requires asOf <= later
    ensures NoWorse(CalculateArrears(installments, asOf), CalculateArrears(installments, later))
  {
    hide CalculateArrears;
    WaitingHurts(installments, asOf, later);
    ArrearsReading(installments, asOf);
    ArrearsReading(installments, later);
  }
}
