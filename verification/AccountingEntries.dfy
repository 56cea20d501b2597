/** The journal lines that payroll and asset events post, and when they balance. */
module AccountingEntries {
  import opened Money
  import opened GeneralLedger

  /** Two lines for one amount: debit one account, credit another. */
  function TwoLines(debited: nat, credited: nat, amount: int): seq<Line> {
    [Line(debited, amount, 0), Line(credited, 0, amount)]
  }

  lemma TwoLinesSums(debited: nat, credited: nat, amount: int)
    ensures SumDebit(TwoLines(debited, credited, amount)) == amount == SumCredit(TwoLines(debited, credited, amount))
  {
    var l := TwoLines(debited, credited, amount);
    Snoc(DebitOf(), l);
    Snoc(DebitOf(), l[..1]);
    Snoc(CreditOf(), l);
    Snoc(CreditOf(), l[..1]);
  }

  lemma Snoc(f: Line -> int, lines: seq<Line>)
    requires lines != []
    ensures Total(f, lines) == Total(f, lines[..|lines| - 1]) + f(lines[|lines| - 1])
    ensures |lines| == 1 ==> Total(f, lines) == f(lines[0])
  {
    if |lines| == 1 {
      assert lines[..0] == [];
    }
  }

  /** Lines without an amount on either side are left out. */
  function NonZero(lines: seq<Line>): (r: seq<Line>)
    ensures forall l :: l in r ==> l in lines
  {
    if lines == [] then []
    else
      var l := lines[|lines| - 1];
      NonZero(lines[..|lines| - 1]) + if l.debit > 0 || l.credit > 0 then [l] else []
  }

  lemma {:induction false} NonZeroSums(lines: seq<Line>)
    requires forall i :: 0 <= i < |lines| ==> lines[i].debit >= 0 && lines[i].credit >= 0
    ensures SumDebit(NonZero(lines)) == SumDebit(lines) && SumCredit(NonZero(lines)) == SumCredit(lines)
  {
    if lines != [] {
      var before, l := lines[..|lines| - 1], lines[|lines| - 1];
      NonZeroSums(before);
      if l.debit > 0 || l.credit > 0 {
        TotalSnoc(DebitOf(), NonZero(before), l);
        TotalSnoc(CreditOf(), NonZero(before), l);
      } else {
        assert NonZero(before) + [] == NonZero(before);
      }
    }
  }

  // ---- payroll ----------------------------------------------------------

  datatype PayrollTotals = PayrollTotals(
    gross: int, paye: int, ssnitEmployee: int, ssnitEmployer: int, tier2Employer: int, otherDeductions: int, net: int)

  datatype PayrollAccounts = PayrollAccounts(
    salaryExpense: nat, ssnitExpense: nat, tier2Expense: nat, payePayable: nat, ssnitPayable: nat, tier2Payable: nat,
    otherPayable: nat, salariesPayable: nat)

  function AllPayrollLines(t: PayrollTotals, a: PayrollAccounts): seq<Line> {
    [Line(a.salaryExpense, t.gross, 0), Line(a.ssnitExpense, t.ssnitEmployer, 0),
     Line(a.tier2Expense, t.tier2Employer, 0),
     Line(a.payePayable, 0, t.paye), Line(a.ssnitPayable, 0, t.ssnitEmployee + t.ssnitEmployer),
     Line(a.tier2Payable, 0, t.tier2Employer),
     Line(a.otherPayable, 0, t.otherDeductions), Line(a.salariesPayable, 0, t.net)]
  }

  function BuildPayrollAccrualLines(t: PayrollTotals, a: PayrollAccounts): seq<Line> {
    NonZero(AllPayrollLines(t, a))
  }

  /** The sums of a line sequence, taken from the front. */
  lemma {:induction false} FromFront(f: Line -> int, lines: seq<Line>)
    requires lines != []
    ensures Total(f, lines) == f(lines[0]) + Total(f, lines[1..])
  {
    assert lines == [lines[0]] + lines[1..];
    TotalConcat(f, [lines[0]], lines[1..]);
    Snoc(f, [lines[0]]);
  }

  lemma EightLines(f: Line -> int, l: seq<Line>)
    requires |l| == 8
    ensures Total(f, l) == f(l[0]) + f(l[1]) + f(l[2]) + f(l[3]) + f(l[4]) + f(l[5]) + f(l[6]) + f(l[7])
  {
    FromFront(f, l);
    FromFront(f, l[1..]);
    FromFront(f, l[2..]);
    FromFront(f, l[3..]);
    FromFront(f, l[4..]);
    FromFront(f, l[5..]);
    FromFront(f, l[6..]);
    FromFront(f, l[7..]);
    assert l[1..][1..] == l[2..] && l[2..][1..] == l[3..] && l[3..][1..] == l[4..] && l[4..][1..] == l[5..];
    assert l[5..][1..] == l[6..] && l[6..][1..] == l[7..] && l[7..][1..] == [];
  }

  /** The accrual balances exactly when net pay is gross pay less the three deductions (and something is paid). */
  lemma PayrollAccrualBalances(t: PayrollTotals, a: PayrollAccounts)
    requires t.gross >= 0 && t.paye >= 0 && t.ssnitEmployee >= 0 && t.ssnitEmployer >= 0 && t.tier2Employer >= 0
             && t.otherDeductions >= 0 && t.net >= 0
    ensures IsBalanced(BuildPayrollAccrualLines(t, a))
            <==> t.net == t.gross - t.paye - t.ssnitEmployee - t.otherDeductions
                 && t.gross + t.ssnitEmployer + t.tier2Employer > 0
  {
    hide Total, NonZero;
    var l := AllPayrollLines(t, a);
    EightLines(DebitOf(), l);
    EightLines(CreditOf(), l);
    NonZeroSums(l);
  }

  // ---- asset disposal ---------------------------------------------------

  datatype DisposalAccounts = DisposalAccounts(accumulated: nat, fixedAsset: nat, cash: nat, gain: nat, loss: nat)

  function AllDisposalLines(cost: int, accumulated: int, proceeds: int, a: DisposalAccounts): seq<Line> {
    var netBookValue := cost - accumulated;
    var gainLoss := proceeds - netBookValue;
    [Line(a.accumulated, accumulated, 0), Line(a.fixedAsset, 0, cost)]
    + (if proceeds > 0 then [Line(a.cash, proceeds, 0)] else [])
    + (if gainLoss > 0 then [Line(a.gain, 0, gainLoss)] else if gainLoss < 0 then [Line(a.loss, -gainLoss, 0)] else [])
  }

  function BuildAssetDisposalLines(cost: int, accumulated: int, proceeds: int, a: DisposalAccounts): seq<Line> {
    NonZero(AllDisposalLines(cost, accumulated, proceeds, a))
  }

  /** Whichever side the gain or loss falls on, a disposal's debits equal its credits. */
  lemma DisposalBalances(cost: int, accumulated: int, proceeds: int, a: DisposalAccounts)
    requires cost > 0 && accumulated >= 0 && proceeds >= 0
    ensures IsBalanced(BuildAssetDisposalLines(cost, accumulated, proceeds, a))
    ensures SumCredit(BuildAssetDisposalLines(cost, accumulated, proceeds, a)) == Max(cost, accumulated + proceeds)
  {
    hide NonZero;
    var gainLoss := proceeds - (cost - accumulated);
    var base := [Line(a.accumulated, accumulated, 0), Line(a.fixedAsset, 0, cost)];
    var cash := if proceeds > 0 then [Line(a.cash, proceeds, 0)] else [];
    var rest :=
      if gainLoss > 0 then [Line(a.gain, 0, gainLoss)]
      else if gainLoss < 0 then [Line(a.loss, -gainLoss, 0)]
      else [];
    var all := AllDisposalLines(cost, accumulated, proceeds, a);
    DisposalSums(DebitOf(), base, cash, rest);
    DisposalSums(CreditOf(), base, cash, rest);
    NonZeroSums(all);
  }

  lemma DisposalSums(f: Line -> int, base: seq<Line>, cash: seq<Line>, rest: seq<Line>)
    requires |base| == 2 && |cash| <= 1 && |rest| <= 1
    ensures Total(f, base + cash + rest)
         == f(base[0]) + f(base[1]) + (if cash == [] then 0 else f(cash[0])) + (if rest == [] then 0 else f(rest[0]))
  {
    TotalConcat(f, base + cash, rest);
    TotalConcat(f, base, cash);
    Snoc(f, base);
    Snoc(f, base[..1]);
    if cash != [] { Snoc(f, cash); }
    if rest != [] { Snoc(f, rest); }
  }
}
