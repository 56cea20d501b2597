/** Amortization schedules: reducing balance, flat, and the even split of an outstanding balance. */
module LoanSchedule {
  import opened Money
  import opened Calendar

  datatype ScheduleRow = ScheduleRow(installmentNumber: int, dueDate: Time, principalDue: int, interestDue: int)

  datatype InterestMethod = REDUCING_BALANCE | FLAT

  // ---- the annuity in exact arithmetic ----------------------------------

  function Pow(x: real, n: nat): real {
    if n == 0 then 1.0 else x * Pow(x, n - 1)
  }

  lemma {:induction false} PowAtLeastOne(x: real, n: nat)
    requires x >= 1.0
    ensures Pow(x, n) >= 1.0
  {
    if n > 0 {
      PowAtLeastOne(x, n - 1);
      Scale(1.0, x, Pow(x, n - 1));
    }
  }

  lemma PowAboveOne(x: real, n: nat)
    requires x > 1.0 && n > 0
    ensures Pow(x, n) > 1.0
  {
    PowAtLeastOne(x, n - 1);
    Scale(1.0, x, Pow(x, n - 1));
  }

  /** Multiplication by a non-negative factor keeps order. */
  lemma Scale(a: real, b: real, c: real)
    requires a <= b && c >= 0.0
    ensures a * c <= b * c
  {
  }

  function Payment(principal: real, rate: real, term: nat): real
    requires rate >= 0.0 && term > 0
  {
    if rate == 0.0 then principal / term as real
    else
      var q := Pow(1.0 + rate, term);
      PowAboveOne(1.0 + rate, term);
      principal * rate * q / (q - 1.0)
  }

  /** The interest of one month, on its own so that no other proof multiplies. */
  function MonthlyInterest(balance: real, rate: real): real {
    if rate == 0.0 then 0.0 else balance * rate
  }

  /** Outstanding balance after `k` rows, never corrected by the last-row override. */
  function Balance(principal: real, rate: real, term: nat, k: nat): real
    requires rate >= 0.0 && term > 0
  {
    if k == 0 then principal
    else
      var before := Balance(principal, rate, term, k - 1);
      before - (Payment(principal, rate, term) - MonthlyInterest(before, rate))
  }

  function InterestPart(principal: real, rate: real, term: nat, k: nat): real
    requires rate >= 0.0 && term > 0 && k > 0
  {
    MonthlyInterest(Balance(principal, rate, term, k - 1), rate)
  }

  function PrincipalPart(principal: real, rate: real, term: nat, k: nat): real
    requires rate >= 0.0 && term > 0 && k > 0
  {
    Payment(principal, rate, term) - InterestPart(principal, rate, term, k)
  }

  /** The defining equation of the payment, cleared of its denominator; `q` is the growth over the term. */
  ghost predicate Annuity(principal: real, rate: real, q: real, payment: real) {
    q > 1.0 && payment * (q - 1.0) == principal * rate * q
  }

  /** Closed form of the balance `b` once the loan would have grown by `g`, cleared of its denominator. */
  ghost predicate OnCurve(principal: real, q: real, g: real, b: real) {
    b * (q - 1.0) == principal * (q - g)
  }

  lemma PaymentIsAnnuity(principal: real, rate: real, term: nat)
    requires rate > 0.0 && term > 0
    ensures Annuity(principal, rate, Pow(1.0 + rate, term), Payment(principal, rate, term))
  {
    PowAboveOne(1.0 + rate, term);
    Undivide(principal * rate * Pow(1.0 + rate, term), Pow(1.0 + rate, term) - 1.0);
  }

  lemma Undivide(x: real, d: real)
    requires d != 0.0
    ensures x / d * d == x
  {
  }

  lemma CurveStart(principal: real, q: real)
    ensures OnCurve(principal, q, 1.0, principal)
  {
  }

  lemma CurveStep(principal: real, rate: real, q: real, g: real, next: real, b: real, payment: real)
    requires rate != 0.0 && Annuity(principal, rate, q, payment) && OnCurve(principal, q, g, b)
    requires next == (1.0 + rate) * g
    ensures OnCurve(principal, q, next, b - (payment - MonthlyInterest(b, rate)))
  {
    calc {
      (b - (payment - b * rate)) * (q - 1.0);
    ==
      b * (q - 1.0) * (1.0 + rate) - payment * (q - 1.0);
    ==
      principal * (q - g) * (1.0 + rate) - principal * rate * q;
    ==
      principal * (q - (1.0 + rate) * g);
    }
  }

  lemma CurveEnd(principal: real, q: real, b: real)
    requires q > 1.0 && OnCurve(principal, q, q, b)
    ensures b == 0.0
  {
    ZeroFactor(b, q - 1.0);
  }

  lemma CurvePrincipal(principal: real, rate: real, q: real, g: real, b: real, payment: real)
    requires principal >= 0.0 && rate > 0.0 && g >= 0.0
    requires Annuity(principal, rate, q, payment) && OnCurve(principal, q, g, b)
    ensures payment - MonthlyInterest(b, rate) >= 0.0
  {
    calc {
      (payment - b * rate) * (q - 1.0);
    ==
      payment * (q - 1.0) - b * (q - 1.0) * rate;
    ==
      principal * rate * q - principal * (q - g) * rate;
    ==
      principal * rate * g;
    }
    Scale(0.0, principal, rate);
    Scale(0.0, principal * rate, g);
    NonNegativeFactor(payment - b * rate, q - 1.0);
  }

  lemma ZeroFactor(b: real, d: real)
    requires d > 0.0 && b * d == 0.0
    ensures b == 0.0
  {
  }

  lemma NonNegativeFactor(b: real, d: real)
    requires d > 0.0 && b * d >= 0.0
    ensures b >= 0.0
  {
  }

  lemma {:induction false} BalanceOnCurve(principal: real, rate: real, term: nat, k: nat)
    requires rate > 0.0 && term > 0
    ensures OnCurve(principal, Pow(1.0 + rate, term), Pow(1.0 + rate, k), Balance(principal, rate, term, k))
  {
    hide OnCurve, Annuity, MonthlyInterest, Payment;
    var q := Pow(1.0 + rate, term);
    if k == 0 {
      CurveStart(principal, q);
    } else {
      BalanceOnCurve(principal, rate, term, k - 1);
      PaymentIsAnnuity(principal, rate, term);
      PowStep(1.0 + rate, k - 1);
      CurveStep(principal, rate, q, Pow(1.0 + rate, k - 1), Pow(1.0 + rate, k), Balance(principal, rate, term, k - 1),
        Payment(principal, rate, term));
    }
  }

  lemma PowStep(x: real, n: nat)
    ensures Pow(x, n + 1) == x * Pow(x, n)
  {
  }

  lemma {:induction false} ZeroRateBalance(principal: real, term: nat, k: nat)
    requires term > 0
    ensures Balance(principal, 0.0, term, k) == principal - k as real * (principal / term as real)
  {
    if k > 0 {
      ZeroRateBalance(principal, term, k - 1);
      OneMore(k - 1, principal / term as real);
    }
  }

  lemma OneMore(k: nat, x: real)
    ensures k as real * x + x == (k + 1) as real * x
  {
  }

  /**
    The annuity clears the loan: the balance is exactly zero after the last
    row, so replacing the last principal part by the remaining balance
    replaces it by itself.
   */
  lemma AnnuityClearsLoan(principal: real, rate: real, term: nat)
    requires rate >= 0.0 && term > 0
    ensures Balance(principal, rate, term, term) == 0.0
    ensures PrincipalPart(principal, rate, term, term) == Balance(principal, rate, term, term - 1)
  {
    if rate == 0.0 {
      ZeroRateBalance(principal, term, term);
      assert term as real * (principal / term as real) == principal;
    } else {
      BalanceOnCurve(principal, rate, term, term);
      PowAboveOne(1.0 + rate, term);
      CurveEnd(principal, Pow(1.0 + rate, term), Balance(principal, rate, term, term));
    }
  }

  /** Every row pays the same total; interest never rises and principal never falls. */
  lemma AnnuityRows(principal: real, rate: real, term: nat, k: nat)
    requires principal >= 0.0 && rate >= 0.0 && 0 < k && 0 < term
    ensures PrincipalPart(principal, rate, term, k) + InterestPart(principal, rate, term, k)
            == Payment(principal, rate, term)
    ensures InterestPart(principal, rate, term, k + 1) <= InterestPart(principal, rate, term, k)
    ensures PrincipalPart(principal, rate, term, k) <= PrincipalPart(principal, rate, term, k + 1)
    ensures 0.0 <= PrincipalPart(principal, rate, term, k)
  {
    PrincipalPartNonNegative(principal, rate, term, k);
    assert Balance(principal, rate, term, k)
           == Balance(principal, rate, term, k - 1) - PrincipalPart(principal, rate, term, k);
    Scale(Balance(principal, rate, term, k), Balance(principal, rate, term, k - 1), rate);
  }

  lemma PrincipalPartNonNegative(principal: real, rate: real, term: nat, k: nat)
    requires principal >= 0.0 && rate >= 0.0 && 0 < k && 0 < term
    ensures 0.0 <= PrincipalPart(principal, rate, term, k)
  {
    hide OnCurve, Annuity, MonthlyInterest;
    var b := Balance(principal, rate, term, k - 1);
    if rate == 0.0 {
      NoInterest(b);
    } else {
      hide Payment, Balance;
      PaymentIsAnnuity(principal, rate, term);
      PowAtLeastOne(1.0 + rate, k - 1);
      BalanceOnCurve(principal, rate, term, k - 1);
      CurvePrincipal(principal, rate, Pow(1.0 + rate, term), Pow(1.0 + rate, k - 1), b, Payment(principal, rate, term));
    }
  }

  lemma NoInterest(balance: real)
    ensures MonthlyInterest(balance, 0.0) == 0.0
  {
  }

  /** The principal parts of the first `k` rows add up to what the balance has lost. */
  function PrincipalRepaid(principal: real, rate: real, term: nat, k: nat): real
    requires rate >= 0.0 && term > 0
  {
    if k == 0 then 0.0 else PrincipalRepaid(principal, rate, term, k - 1) + PrincipalPart(principal, rate, term, k)
  }

  lemma {:induction false} RepaidPlusBalance(principal: real, rate: real, term: nat, k: nat)
    requires rate >= 0.0 && term > 0
    ensures PrincipalRepaid(principal, rate, term, k) + Balance(principal, rate, term, k) == principal
  {
    if k > 0 {
      RepaidPlusBalance(principal, rate, term, k - 1);
    }
  }

  // ---- generateSchedule -------------------------------------------------

  /** Row `i` of the schedule (1-based), in exact arithmetic. */
  function ExactPrincipal(principal: int, annualRatePct: real, term: nat, interestMethod: InterestMethod, i: nat): real
    requires annualRatePct >= 0.0 && 0 < i <= term
  {
    if interestMethod.REDUCING_BALANCE? then PrincipalPart(principal as real, annualRatePct / 100.0 / 12.0, term, i)
    else principal as real / term as real
  }

  function ExactInterest(principal: int, annualRatePct: real, term: nat, interestMethod: InterestMethod, i: nat): real
    requires annualRatePct >= 0.0 && 0 < i <= term
  {
    if interestMethod.REDUCING_BALANCE? then InterestPart(principal as real, annualRatePct / 100.0 / 12.0, term, i)
    else FlatInterest(principal, annualRatePct, term) / term as real
  }

  /** Interest on the whole principal over the whole term. */
  function FlatInterest(principal: int, annualRatePct: real, term: nat): real {
    principal as real * (annualRatePct / 100.0) * (term as real / 12.0)
  }

  function Row(principal: int, annualRatePct: real, term: nat, interestMethod: InterestMethod, startDate: Time,
      i: nat): ScheduleRow
    requires annualRatePct >= 0.0 && 0 < i <= term
  {
    ScheduleRow(i, AddMonths(startDate, i),
                RoundCents(ExactPrincipal(principal, annualRatePct, term, interestMethod, i)),
                RoundCents(ExactInterest(principal, annualRatePct, term, interestMethod, i)))
  }

  function Schedule(principal: int, annualRatePct: real, term: nat, interestMethod: InterestMethod,
      startDate: Time): (rows: seq<ScheduleRow>)
    requires annualRatePct >= 0.0
    ensures |rows| == term
  {
    seq(term, i requires 0 <= i < term => Row(principal, annualRatePct, term, interestMethod, startDate, i + 1))
  }

  method GenerateSchedule(principal: int, annualRatePct: real, termMonths: nat, interestMethod: InterestMethod,
      startDate: Time)
    returns (rows: seq<ScheduleRow>)
    requires annualRatePct >= 0.0 && termMonths > 0
    ensures rows == Schedule(principal, annualRatePct, termMonths, interestMethod, startDate)
  {
    if interestMethod.REDUCING_BALANCE? {
      rows := ReducingBalanceRows(principal, annualRatePct, termMonths, startDate);
    } else {
      rows := FlatRows(principal, annualRatePct, termMonths, startDate);
    }
  }

  /** The reducing-balance loop of the program, with its running balance and last-row override. */
  method ReducingBalanceRows(principal: int, annualRatePct: real, termMonths: nat, startDate: Time)
      returns (rows: seq<ScheduleRow>)
    requires annualRatePct >= 0.0 && termMonths > 0
    ensures rows == Schedule(principal, annualRatePct, termMonths, REDUCING_BALANCE, startDate)
  {
    hide AddMonths;
    var monthlyRate := annualRatePct / 100.0 / 12.0;
    var balance := principal as real;
    var payment := Payment(principal as real, monthlyRate, termMonths);
    ghost var spec := Schedule(principal, annualRatePct, termMonths, REDUCING_BALANCE, startDate);
    hide Payment, Schedule, Balance, ExactInterest, ExactPrincipal, RoundCents, MonthlyInterest;
    assert balance == Balance(principal as real, monthlyRate, termMonths, 0) by {
      NothingPaid(principal as real, monthlyRate, termMonths);
    }
    rows := [];
    for i := 1 to termMonths + 1
      invariant balance == Balance(principal as real, monthlyRate, termMonths, i - 1)
      invariant rows == spec[..i - 1]
    {
      AnnuityTurn(principal, annualRatePct, termMonths, i);
      var interestDue := MonthlyInterest(balance, monthlyRate);
      var principalDue := payment - interestDue;
      if i == termMonths {
        principalDue := balance;
      }
      ScheduleAt(principal, annualRatePct, termMonths, REDUCING_BALANCE, startDate, i);
      balance := balance - principalDue;
      var dueDate := AddMonths(startDate, i);
      rows := rows + [ScheduleRow(i, dueDate, RoundCents(principalDue), RoundCents(interestDue))];
      assert spec[..i] == spec[..i - 1] + [spec[i - 1]];
    }
  }

  lemma NothingPaid(principal: real, rate: real, term: nat)
    requires rate >= 0.0 && term > 0
    ensures Balance(principal, rate, term, 0) == principal
  {
  }

  method FlatRows(principal: int, annualRatePct: real, termMonths: nat, startDate: Time)
      returns (rows: seq<ScheduleRow>)
    requires annualRatePct >= 0.0 && termMonths > 0
    ensures rows == Schedule(principal, annualRatePct, termMonths, FLAT, startDate)
  {
    hide AddMonths;
    var totalInterest := principal as real * (annualRatePct / 100.0) * (termMonths as real / 12.0);
    var principalPerInstallment := principal as real / termMonths as real;
    var interestPerInstallment := totalInterest / termMonths as real;
    ghost var spec := Schedule(principal, annualRatePct, termMonths, FLAT, startDate);
    hide Schedule;
    rows := [];
    for i := 1 to termMonths + 1
      invariant rows == spec[..i - 1]
    {
      ScheduleAt(principal, annualRatePct, termMonths, FLAT, startDate, i);
      var dueDate := AddMonths(startDate, i);
      rows := rows + [ScheduleRow(i, dueDate, RoundCents(principalPerInstallment), RoundCents(interestPerInstallment))];
    }
  }

  lemma ScheduleAt(principal: int, annualRatePct: real, term: nat, interestMethod: InterestMethod, startDate: Time,
      i: nat)
    requires annualRatePct >= 0.0 && 0 < i <= term
    ensures Schedule(principal, annualRatePct, term, interestMethod, startDate)[i - 1]
         == Row(principal, annualRatePct, term, interestMethod, startDate, i)
  {
    hide AddMonths, ExactPrincipal, ExactInterest, RoundCents, Row;
  }

  /** What one turn of the reducing-balance loop computes, the override of the last row included. */
  lemma AnnuityTurn(principal: int, annualRatePct: real, term: nat, i: nat)
    requires annualRatePct >= 0.0 && 0 < i <= term
    ensures var rate := annualRatePct / 100.0 / 12.0;
            var balance := Balance(principal as real, rate, term, i - 1);
            var interestDue := MonthlyInterest(balance, rate);
            var principalDue := if i == term then balance else Payment(principal as real, rate, term) - interestDue;
            && interestDue == ExactInterest(principal, annualRatePct, term, REDUCING_BALANCE, i)
            && principalDue == ExactPrincipal(principal, annualRatePct, term, REDUCING_BALANCE, i)
            && balance - principalDue == Balance(principal as real, rate, term, i)
  {
    hide Payment, Pow;
    var rate := annualRatePct / 100.0 / 12.0;
    AnnuityClearsLoan(principal as real, rate, term);
  }

  function TotalPrincipal(rows: seq<ScheduleRow>): int {
    if rows == [] then 0 else TotalPrincipal(rows[..|rows| - 1]) + rows[|rows| - 1].principalDue
  }

  function TotalInterest(rows: seq<ScheduleRow>): int {
    if rows == [] then 0 else TotalInterest(rows[..|rows| - 1]) + rows[|rows| - 1].interestDue
  }

  /** Exact principal of the first `k` rows. */
  function ExactTotal(principal: int, annualRatePct: real, term: nat, interestMethod: InterestMethod, k: nat): real
    requires annualRatePct >= 0.0 && k <= term
  {
    if k == 0 then 0.0
    else
      ExactTotal(principal, annualRatePct, term, interestMethod, k - 1)
      + ExactPrincipal(principal, annualRatePct, term, interestMethod, k)
  }

  lemma {:induction false} ExactTotalIsPrincipal(principal: int, annualRatePct: real, term: nat,
      interestMethod: InterestMethod, k: nat)
    requires annualRatePct >= 0.0 && 0 < term && k <= term
    ensures interestMethod.REDUCING_BALANCE? ==>
              ExactTotal(principal, annualRatePct, term, interestMethod, k)
                == PrincipalRepaid(principal as real, annualRatePct / 100.0 / 12.0, term, k)
    ensures interestMethod.FLAT? ==>
              ExactTotal(principal, annualRatePct, term, interestMethod, k)
                == k as real * (principal as real / term as real)
  {
    hide Payment;
    if k > 0 {
      ExactTotalIsPrincipal(principal, annualRatePct, term, interestMethod, k - 1);
      OneMorePart(k - 1, principal as real / term as real);
    }
  }

  lemma OneMorePart(n: nat, x: real)
    ensures (n + 1) as real * x == n as real * x + x
  {
  }

  lemma {:induction false} RoundedTotalError(principal: int, annualRatePct: real, term: nat,
      interestMethod: InterestMethod, startDate: Time, k: nat)
    requires annualRatePct >= 0.0 && k <= term
    ensures var rows := Schedule(principal, annualRatePct, term, interestMethod, startDate)[..k];
            var error := TotalPrincipal(rows) as real - ExactTotal(principal, annualRatePct, term, interestMethod, k);
            -(k as real) / 2.0 <= error <= k as real / 2.0
  {
    hide MonthStart;
    hide Payment;
    if k > 0 {
      RoundedTotalError(principal, annualRatePct, term, interestMethod, startDate, k - 1);
      var all := Schedule(principal, annualRatePct, term, interestMethod, startDate);
      assert all[..k][..k - 1] == all[..k - 1];
      RoundError(ExactPrincipal(principal, annualRatePct, term, interestMethod, k));
    }
  }

  /** Under either method the rounded principal parts are within n/2 cents of the loan. */
  lemma PrincipalWithinHalfCentPerRow(principal: int, annualRatePct: real, term: nat, interestMethod: InterestMethod,
      startDate: Time)
    requires annualRatePct >= 0.0 && term > 0
    ensures var rows := Schedule(principal, annualRatePct, term, interestMethod, startDate);
            2 * Abs(TotalPrincipal(rows) - principal) <= term
  {
    hide MonthStart;
    hide Payment;
    var rows := Schedule(principal, annualRatePct, term, interestMethod, startDate);
    assert rows[..term] == rows;
    RoundedTotalError(principal, annualRatePct, term, interestMethod, startDate, term);
    ExactTotalIsPrincipal(principal, annualRatePct, term, interestMethod, term);
    var rate := annualRatePct / 100.0 / 12.0;
    AnnuityClearsLoan(principal as real, rate, term);
    RepaidPlusBalance(principal as real, rate, term, term);
    assert term as real * (principal as real / term as real) == principal as real;
  }

  lemma {:induction false} EqualInterest(rows: seq<ScheduleRow>, q: int)
    requires forall j :: 0 <= j < |rows| ==> rows[j].interestDue == q
    ensures TotalInterest(rows) == q * |rows|
  {
    if rows != [] {
      EqualInterest(rows[..|rows| - 1], q);
      assert q * (|rows| - 1) + q == q * |rows|;
    }
  }

  /** n times a rounded amount is within n/2 of n times the amount. */
  lemma RoundedMultiple(x: real, n: nat)
    ensures -(n as real) / 2.0 <= (RoundCents(x) * n) as real - x * n as real <= n as real / 2.0
  {
    var q := RoundCents(x);
    RoundError(x);
    Scale(q as real - x, 0.5, n as real);
    Scale(-0.5, q as real - x, n as real);
    assert (q as real - x) * n as real == (q * n) as real - x * n as real;
  }

  /** Flat interest is that of the whole principal over the whole term, within n/2 cents. */
  lemma FlatInterestWithinHalfCentPerRow(principal: int, annualRatePct: real, term: nat, startDate: Time)
    requires annualRatePct >= 0.0 && term > 0
    ensures var total := TotalInterest(Schedule(principal, annualRatePct, term, FLAT, startDate)) as real;
            -(term as real) / 2.0 <= total - FlatInterest(principal, annualRatePct, term) <= term as real / 2.0
  {
    hide TotalInterest, Schedule, RoundCents, FlatInterest, Row, AddMonths;
    var rows := Schedule(principal, annualRatePct, term, FLAT, startDate);
    var each := FlatInterest(principal, annualRatePct, term) / term as real;
    forall j: nat | j < term
      ensures rows[j].interestDue == RoundCents(each)
    {
      ScheduleAt(principal, annualRatePct, term, FLAT, startDate, j + 1);
      FlatRowInterest(principal, annualRatePct, term, startDate, j + 1);
    }
    EqualInterest(rows, RoundCents(each));
    RoundedMultiple(each, term);
    Undivide(FlatInterest(principal, annualRatePct, term), term as real);
  }

  /** Simple interest on an amount over a number of months. */
  function Interest(amount: real, annualRatePct: real, months: real): real {
    amount * annualRatePct * months / 1200.0
  }

  function AnnualInterest(amount: real, annualRatePct: real): real { amount * annualRatePct / 100.0 }

  lemma InterestFactors(amount: real, annualRatePct: real, months: real)
    ensures amount * (annualRatePct / 100.0) * (months / 12.0) == Interest(amount, annualRatePct, months)
  {
    var x, y := annualRatePct / 100.0, months / 12.0;
    assert amount * (100.0 * x) * (12.0 * y) == 1200.0 * (amount * x * y);
  }

  lemma InterestOfYear(amount: real, annualRatePct: real)
    ensures Interest(amount, annualRatePct, 12.0) == AnnualInterest(amount, annualRatePct)
  {
  }

  lemma InterestOfMonth(amount: real, annualRatePct: real)
    ensures amount * (annualRatePct / 100.0 / 12.0) == Interest(amount, annualRatePct, 1.0)
  {
    InterestFactors(amount, annualRatePct, 1.0);
    assert annualRatePct / 100.0 / 12.0 == (annualRatePct / 100.0) * (1.0 / 12.0);
  }

  /**
    What flat interest is: simple interest on the whole principal over the
    whole term; a year's rows total the annual rate on it, within six cents.
   */
  lemma FlatInterestMeans(principal: int, annualRatePct: real, term: nat, startDate: Time)
    requires annualRatePct >= 0.0 && term > 0
    ensures var total := TotalInterest(Schedule(principal, annualRatePct, term, FLAT, startDate)) as real;
            var due := Interest(principal as real, annualRatePct, term as real);
            && -(term as real) / 2.0 <= total - due <= term as real / 2.0
            && (term == 12 ==> -6.0 <= total - AnnualInterest(principal as real, annualRatePct) <= 6.0)
  {
    hide TotalInterest, Schedule, Interest, FlatInterest, AnnualInterest;
    FlatInterestWithinHalfCentPerRow(principal, annualRatePct, term, startDate);
    FlatInterestIs(principal, annualRatePct, term);
    InterestOfYear(principal as real, annualRatePct);
  }

  lemma FlatInterestIs(principal: int, annualRatePct: real, term: nat)
    ensures FlatInterest(principal, annualRatePct, term) == Interest(principal as real, annualRatePct, term as real)
  {
    hide Interest;
    InterestFactors(principal as real, annualRatePct, term as real);
  }

  /**
    What reducing-balance interest is: each month simple interest on what the
    earlier rows have left of the principal.
   */
  lemma ReducingInterestMeans(principal: int, annualRatePct: real, term: nat, startDate: Time, i: nat)
    requires annualRatePct >= 0.0 && 0 < i <= term
    ensures var rows := Schedule(principal, annualRatePct, term, REDUCING_BALANCE, startDate);
            var left := principal as real - ExactTotal(principal, annualRatePct, term, REDUCING_BALANCE, i - 1);
            rows[i - 1].interestDue == RoundCents(Interest(left, annualRatePct, 1.0))
  {
    hide Interest, RoundCents, Row, Schedule, ExactTotal;
    RowInterest(principal, annualRatePct, term, startDate, i);
    ScheduleAt(principal, annualRatePct, term, REDUCING_BALANCE, startDate, i);
  }

  lemma {:induction false} LeftIsBalance(principal: int, annualRatePct: real, term: nat, k: nat)
    requires annualRatePct >= 0.0 && 0 < term && k <= term
    ensures principal as real - ExactTotal(principal, annualRatePct, term, REDUCING_BALANCE, k)
         == Balance(principal as real, annualRatePct / 100.0 / 12.0, term, k)
  {
    hide Payment, MonthlyInterest;
    if k > 0 {
      LeftIsBalance(principal, annualRatePct, term, k - 1);
    }
  }

  lemma RowInterest(principal: int, annualRatePct: real, term: nat, startDate: Time, i: nat)
    requires annualRatePct >= 0.0 && 0 < i <= term
    ensures var left := principal as real - ExactTotal(principal, annualRatePct, term, REDUCING_BALANCE, i - 1);
            Row(principal, annualRatePct, term, REDUCING_BALANCE, startDate, i).interestDue
            == RoundCents(Interest(left, annualRatePct, 1.0))
  {
    hide Interest, RoundCents, Balance, AddMonths, PrincipalPart, MonthlyInterest, ExactTotal;
    LeftIsBalance(principal, annualRatePct, term, i - 1);
    MonthlyInterestMeans(Balance(principal as real, annualRatePct / 100.0 / 12.0, term, i - 1), annualRatePct);
  }

  lemma MonthlyInterestMeans(balance: real, annualRatePct: real)
    ensures MonthlyInterest(balance, annualRatePct / 100.0 / 12.0) == Interest(balance, annualRatePct, 1.0)
  {
    hide Interest;
    InterestOfMonth(balance, annualRatePct);
  }

  /** Rows are numbered from 1, and row i falls due i months after the start, rolling over short months. */
  lemma RowNumberAndDate(principal: int, annualRatePct: real, term: nat, interestMethod: InterestMethod,
      startDate: Time, i: nat)
    requires annualRatePct >= 0.0 && 0 < i <= term
    ensures var row := Schedule(principal, annualRatePct, term, interestMethod, startDate)[i - 1];
            var target := AbsMonth(startDate) + i;
            var length := MonthStart(target + 1) - MonthStart(target);
            && row.installmentNumber == i && TimeInDay(row.dueDate) == TimeInDay(startDate)
            && if DateOfMonth(startDate) <= length
               then AbsMonth(row.dueDate) == target && DateOfMonth(row.dueDate) == DateOfMonth(startDate)
               else AbsMonth(row.dueDate) == target + 1 && DateOfMonth(row.dueDate) == DateOfMonth(startDate) - length
  {
    hide Schedule, AddMonths, MonthStart, AbsMonth, DateOfMonth, ExactPrincipal, ExactInterest, RoundCents;
    ScheduleAt(principal, annualRatePct, term, interestMethod, startDate, i);
    AddMonthsLands(startDate, i);
  }

  lemma FlatRowInterest(principal: int, annualRatePct: real, term: nat, startDate: Time, i: nat)
    requires annualRatePct >= 0.0 && 0 < i <= term
    ensures Row(principal, annualRatePct, term, FLAT, startDate, i).interestDue
            == RoundCents(FlatInterest(principal, annualRatePct, term) / term as real)
  {
    hide AddMonths, RoundCents, FlatInterest;
  }

  /** Due dates strictly increase, month rollover included, and all fall after the start. */
  lemma DueDatesIncrease(principal: int, annualRatePct: real, term: nat, interestMethod: InterestMethod,
      startDate: Time, i: nat, j: nat)
    requires annualRatePct >= 0.0 && i < j < term
    ensures var rows := Schedule(principal, annualRatePct, term, interestMethod, startDate);
            startDate < rows[i].dueDate < rows[j].dueDate
  {
    hide MonthStart;
    AddZeroMonths(startDate);
    AddMonthsIncreasing(startDate, 0, i + 1);
    AddMonthsIncreasing(startDate, i + 1, j + 1);
  }

  // ---- generateRemainingSchedule ----------------------------------------

  function RemainingRow(principalPer: int, interestPer: int, nextDueDate: Time, i: int): ScheduleRow {
    ScheduleRow(i, AddMonths(nextDueDate, i - 1), principalPer, interestPer)
  }

  method GenerateRemainingSchedule(outstandingPrincipal: int, outstandingInterest: int, remainingInstallments: nat,
      nextDueDate: Time)
    returns (rows: seq<ScheduleRow>)
    requires remainingInstallments > 0
    ensures |rows| == remainingInstallments
    ensures TotalPrincipal(rows) == outstandingPrincipal
    ensures TotalInterest(rows) == outstandingInterest
    ensures forall i :: 0 <= i < |rows| ==>
            rows[i].installmentNumber == i + 1 && rows[i].dueDate == AddMonths(nextDueDate, i)
    ensures var p := EvenPart(outstandingPrincipal, remainingInstallments);
            var q := EvenPart(outstandingInterest, remainingInstallments);
            && (forall i :: 0 <= i < |rows| - 1 ==> rows[i].principalDue == p && rows[i].interestDue == q)
            && 2 * Abs(rows[|rows| - 1].principalDue - p) <= remainingInstallments
            && 2 * Abs(rows[|rows| - 1].interestDue - q) <= remainingInstallments
  {
    hide MonthStart, AddMonths;
    var principalPer := RoundCents(outstandingPrincipal as real / remainingInstallments as real);
    var interestPer := RoundCents(outstandingInterest as real / remainingInstallments as real);
    rows := [];
    for i := 1 to remainingInstallments + 1
      invariant |rows| == i - 1
      invariant forall j :: 0 <= j < |rows| ==> rows[j] == RemainingRow(principalPer, interestPer, nextDueDate, j + 1)
    {
      var dueDate := AddMonths(nextDueDate, i - 1);
      rows := rows + [ScheduleRow(i, dueDate, principalPer, interestPer)];
    }
    var principalSoFar := principalPer * (remainingInstallments - 1);
    var interestSoFar := interestPer * (remainingInstallments - 1);
    var last := |rows| - 1;
    EqualRowsTotal(rows[..last], principalPer, interestPer);
    ghost var even := rows[..last];
    rows := rows[last := rows[last].(principalDue := outstandingPrincipal - principalSoFar)];
    rows := rows[last := rows[last].(interestDue := outstandingInterest - interestSoFar)];
    assert rows[..last] == even;
    EvenPartError(outstandingPrincipal, remainingInstallments);
    EvenPartError(outstandingInterest, remainingInstallments);
  }

  function EvenPart(amount: int, n: nat): int
    requires n > 0
  {
    RoundCents(amount as real / n as real)
  }

  lemma EvenPartError(amount: int, n: nat)
    requires n > 0
    ensures 2 * Abs(amount - EvenPart(amount, n) * (n - 1) - EvenPart(amount, n)) <= n
  {
    var p := EvenPart(amount, n);
    RoundError(amount as real / n as real);
    var x := amount as real / n as real;
    assert x * n as real == amount as real;
    Scale(p as real - x, 0.5, n as real);
    Scale(-0.5, p as real - x, n as real);
    assert (p as real - x) * n as real == (p * n) as real - amount as real;
    assert p * (n - 1) + p == p * n;
  }

  lemma {:induction false} EqualRowsTotal(rows: seq<ScheduleRow>, p: int, q: int)
    requires forall j :: 0 <= j < |rows| ==> rows[j].principalDue == p && rows[j].interestDue == q
    ensures TotalPrincipal(rows) == p * |rows| && TotalInterest(rows) == q * |rows|
  {
    if rows != [] {
      EqualRowsTotal(rows[..|rows| - 1], p, q);
      assert p * (|rows| - 1) + p == p * |rows|;
      assert q * (|rows| - 1) + q == q * |rows|;
    }
  }

  /** Rounding a quotient: the whole part, and one more from half a part on. */
  lemma EvenPartIs(amount: int, n: nat)
    requires n > 0
    ensures EvenPart(amount, n) == amount / n + if 2 * (amount % n) < n then 0 else 1
  {
    var q, r := amount / n, amount % n;
    var x := r as real / n as real;
    assert x * n as real == r as real;
    assert amount == q * n + r;
    assert amount as real == q as real * n as real + r as real;
    assert amount as real / n as real == q as real + x by { QuotientOfSum(amount as real, q as real, x, n as real); }
    HalfOf(r as real, n as real, x);
  }

  lemma QuotientOfSum(a: real, q: real, x: real, n: real)
    requires n > 0.0 && a == q * n + x * n
    ensures a / n == q + x
  {
    assert (q + x) * n == a;
    Undivide(a, n);
    ZeroFactor(a / n - (q + x), n);
  }

  lemma HalfOf(r: real, m: real, x: real)
    requires m > 0.0 && 0.0 <= r < m && x * m == r
    ensures 0.0 <= x < 1.0 && (2.0 * r < m <==> x < 0.5)
  {
    NonNegativeFactor(x, m);
    if x >= 1.0 {
      Scale(1.0, x, m);
    }
    if x >= 0.5 {
      Scale(0.5, x, m);
    } else {
      StrictScale(x, 0.5, m);
    }
  }

  lemma StrictScale(x: real, y: real, m: real)
    requires x < y && m > 0.0
    ensures x * m < y * m
  {
  }

  /**
    The last remaining installment is whatever the rounded even part leaves
    over, and with q whole cents and r left over out of n installments that
    is negative exactly in these cases; for one, five cents over ten
    installments leave minus four.
   */
  lemma LastRemaining(outstanding: int, n: nat)
    requires n > 0
    ensures var (q, r) := (outstanding / n, outstanding % n);
            outstanding - EvenPart(outstanding, n) * (n - 1) >= 0 <==> if 2 * r < n then q + r >= 0 else q + r + 1 >= n
    ensures 5 - EvenPart(5, 10) * 9 == -4
  {
    EvenPartIs(outstanding, n);
    EvenPartIs(5, 10);
    var q, r := outstanding / n, outstanding % n;
    assert outstanding == q * n + r;
    assert q * (n - 1) == q * n - q;
    assert (q + 1) * (n - 1) == q * n - q + n - 1;
  }
}
