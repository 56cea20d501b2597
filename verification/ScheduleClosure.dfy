/** From a generated schedule to its closure: loans of ordinary size close exactly when they are repaid. */
module ScheduleClosure {
  import opened Money
  import opened Calendar
  import opened LoanSchedule
  import opened RepaymentAllocation
  import opened LoanRepayment

  /** The installments that disbursing a loan creates from its schedule. */
  function Installments(rows: seq<ScheduleRow>): (r: seq<InstallmentState>)
    ensures |r| == |rows| && Unpaid(r)
    ensures forall i :: 0 <= i < |r| ==>
              r[i] == InstallmentState(i, rows[i].interestDue, rows[i].principalDue, 0, 0, RepaymentAllocation.PENDING)
  {
    seq(|rows|, i requires 0 <= i < |rows| =>
      InstallmentState(i, rows[i].interestDue, rows[i].principalDue, 0, 0, RepaymentAllocation.PENDING))
  }

  /** The smallest exact principal part of a schedule: the first one of an annuity, any one of a flat loan. */
  function SmallestPrincipal(principal: int, annualRatePct: real, term: nat, interestMethod: InterestMethod): real
    requires annualRatePct >= 0.0 && term > 0
  {
    ExactPrincipal(principal, annualRatePct, term, interestMethod, 1)
  }

  lemma {:induction false} PrincipalPartsRise(principal: real, rate: real, term: nat, k: nat)
    requires principal >= 0.0 && rate >= 0.0 && 0 < k && 0 < term
    ensures PrincipalPart(principal, rate, term, 1) <= PrincipalPart(principal, rate, term, k)
  {
    hide PrincipalPart;
    if k > 1 {
      PrincipalPartsRise(principal, rate, term, k - 1);
      AnnuityRows(principal, rate, term, k - 1);
    }
  }

  lemma SmallestIsSmallest(principal: int, annualRatePct: real, term: nat, interestMethod: InterestMethod, k: nat)
    requires principal >= 0 && annualRatePct >= 0.0 && 0 < k <= term
    ensures SmallestPrincipal(principal, annualRatePct, term, interestMethod) <= ExactPrincipal(principal,
            annualRatePct, term, interestMethod, k)
  {
    hide PrincipalPart;
    if interestMethod.REDUCING_BALANCE? {
      PrincipalPartsRise(principal as real, annualRatePct / 100.0 / 12.0, term, k);
    }
  }

  /** The balance never falls below what is left at the end: nothing. */
  lemma {:induction false} BalanceNonNegative(principal: real, rate: real, term: nat, k: nat)
    requires principal >= 0.0 && rate >= 0.0 && 0 < term && k <= term
    ensures Balance(principal, rate, term, k) >= 0.0
    decreases term - k
  {
    if k == term {
      AnnuityClearsLoan(principal, rate, term);
    } else {
      BalanceNonNegative(principal, rate, term, k + 1);
      AnnuityRows(principal, rate, term, k + 1);
      hide Payment, MonthlyInterest;
      assert Balance(principal, rate, term, k + 1)
             == Balance(principal, rate, term, k) - PrincipalPart(principal, rate, term, k + 1);
    }
  }

  lemma ProductNonNegative(x: real, y: real)
    requires x >= 0.0 && y >= 0.0
    ensures x * y >= 0.0
  {
  }

  lemma QuotientNonNegative(x: real, y: real)
    requires x >= 0.0 && y > 0.0
    ensures x / y >= 0.0
  {
  }

  lemma InterestNonNegative(principal: int, annualRatePct: real, term: nat, interestMethod: InterestMethod, k: nat)
    requires principal >= 0 && annualRatePct >= 0.0 && 0 < k <= term
    ensures ExactInterest(principal, annualRatePct, term, interestMethod, k) >= 0.0
  {
    if interestMethod.REDUCING_BALANCE? {
      var rate := annualRatePct / 100.0 / 12.0;
      BalanceNonNegative(principal as real, rate, term, k - 1);
      hide Balance;
      ProductNonNegative(Balance(principal as real, rate, term, k - 1), rate);
    } else {
      ProductNonNegative(principal as real, annualRatePct / 100.0);
      ProductNonNegative(principal as real * (annualRatePct / 100.0), term as real / 12.0);
      QuotientNonNegative(FlatInterest(principal, annualRatePct, term), term as real);
    }
  }

  lemma RoundsToTwo(x: real)
    requires x >= 1.5
    ensures RoundCents(x) >= 2
  {
  }

  lemma RoundsToNothingLess(x: real)
    requires x >= 0.0
    ensures RoundCents(x) >= 0
  {
  }

  /** One installment of such a loan: two cents of principal at least, and no negative interest. */
  lemma RowIsOrdinary(principal: int, annualRatePct: real, term: nat, interestMethod: InterestMethod, startDate: Time,
      i: nat)
    requires principal >= 0 && annualRatePct >= 0.0 && i < term
    requires SmallestPrincipal(principal, annualRatePct, term, interestMethod) >= 1.5
    ensures var row := Installments(Schedule(principal, annualRatePct, term, interestMethod, startDate))[i];
            row.principalDue >= 2 && row.interestDue >= 0
  {
    hide RoundCents, ExactPrincipal, ExactInterest, Schedule, AddMonths;
    ScheduleAt(principal, annualRatePct, term, interestMethod, startDate, i + 1);
    SmallestIsSmallest(principal, annualRatePct, term, interestMethod, i + 1);
    InterestNonNegative(principal, annualRatePct, term, interestMethod, i + 1);
    RoundsToTwo(ExactPrincipal(principal, annualRatePct, term, interestMethod, i + 1));
    RoundsToNothingLess(ExactInterest(principal, annualRatePct, term, interestMethod, i + 1));
  }

  /**
    A loan whose smallest principal part is at least a cent and a half, under
    either method, gets an exact schedule: any run of repayments leaves it
    CLOSED exactly from the total due less one cent on.
   */
  lemma GeneratedLoanClosesOnTime(principal: int, annualRatePct: real, term: nat, interestMethod: InterestMethod,
      startDate: Time, amounts: seq<int>)
    requires principal >= 0 && annualRatePct >= 0.0 && term > 0
    requires SmallestPrincipal(principal, annualRatePct, term, interestMethod) >= 1.5
    requires forall i :: 0 <= i < |amounts| ==> amounts[i] > 0
    ensures var rows := Installments(Schedule(principal, annualRatePct, term, interestMethod, startDate));
            && Fresh(rows) && ExactSchedule(rows)
            && (LiveRun(LoanState(DISBURSED, rows), amounts).status == CLOSED <==> Sum(amounts) >= TotalDue(rows) - 1)
  {
    hide SmallestPrincipal, Schedule, LiveRun, TotalDue, Sum, Negative;
    var rows := Installments(Schedule(principal, annualRatePct, term, interestMethod, startDate));
    forall i: nat | i < term
      ensures rows[i].principalDue >= 2 && rows[i].interestDue >= 0
    {
      RowIsOrdinary(principal, annualRatePct, term, interestMethod, startDate, i);
    }
    NoNegative(rows);
    LoanClosesOnTime(rows, amounts);
  }
}
