/** The statements of the ledger: trial balance, dashboard, balance sheet, changes in equity, account activity. */
module LedgerReports {
  import opened Money
  import opened Calendar
  import opened GeneralLedger

  // ---- trial balance ----------------------------------------------------

  datatype TrialRow = TrialRow(account: nat, debit: int, credit: int)

  /** A balance sits in its normal column, an abnormal negative one in the other. */
  function TrialRowOf(chart: Chart, e: Entry): TrialRow
    requires e.account < |chart|
  {
    if DebitNormal(chart[e.account]) then
      if e.balance >= 0 then TrialRow(e.account, e.balance, 0) else TrialRow(e.account, 0, -e.balance)
    else
      if e.balance >= 0 then TrialRow(e.account, 0, e.balance) else TrialRow(e.account, -e.balance, 0)
  }

  function TrialRows(chart: Chart, balances: Balances): (rows: seq<TrialRow>)
    requires forall i :: 0 <= i < |balances| ==> balances[i].account < |chart|
    ensures |rows| == |balances|
    ensures forall i :: 0 <= i < |rows| ==> rows[i] == TrialRowOf(chart, balances[i])
  {
    if balances == [] then [] else [TrialRowOf(chart, balances[0])] + TrialRows(chart, balances[1..])
  }

  function TotalDebit(rows: seq<TrialRow>): int {
    if rows == [] then 0 else rows[0].debit + TotalDebit(rows[1..])
  }

  function TotalCredit(rows: seq<TrialRow>): int {
    if rows == [] then 0 else rows[0].credit + TotalCredit(rows[1..])
  }

  function TrialBalance(chart: Chart, lines: seq<Line>): seq<TrialRow>
    requires OnChart(chart, lines)
  {
    AggregateDistinct(chart, lines);
    TrialRows(chart, Aggregate(chart, lines))
  }

  lemma {:induction false} ColumnsByCategory(chart: Chart, m: Balances)
    requires forall i :: 0 <= i < |m| ==> m[i].account < |chart|
    ensures TotalDebit(TrialRows(chart, m)) - TotalCredit(TrialRows(chart, m))
         == CategoryTotal(chart, m, ASSET) + CategoryTotal(chart, m, EXPENSE)
            - CategoryTotal(chart, m, LIABILITY) - CategoryTotal(chart, m, EQUITY) - CategoryTotal(chart, m, INCOME)
  {
    if m != [] {
      var rows := TrialRows(chart, m);
      assert rows[1..] == TrialRows(chart, m[1..]);
      ColumnsByCategory(chart, m[1..]);
    }
  }

  /** The two columns differ by exactly what the debits and credits of the lines differ. */
  lemma TrialBalanceColumns(chart: Chart, lines: seq<Line>)
    requires OnChart(chart, lines)
    ensures var rows := TrialBalance(chart, lines);
            TotalDebit(rows) - TotalCredit(rows) == SumDebit(lines) - SumCredit(lines)
  {
    AggregateDistinct(chart, lines);
    ColumnsByCategory(chart, Aggregate(chart, lines));
    AccountingEquation(chart, lines);
  }

  /**
    One row per account; neither column holds a negative amount, only one is
    used, and a row's net is its account's own debits less credits.
   */
  lemma TrialBalanceRows(chart: Chart, lines: seq<Line>, i: nat)
    requires OnChart(chart, lines) && i < |TrialBalance(chart, lines)|
    ensures var row := TrialBalance(chart, lines)[i];
            && row.debit >= 0 && row.credit >= 0 && (row.debit == 0 || row.credit == 0)
            && row.debit - row.credit == NetDebit(lines, row.account)
    ensures forall j :: i < j < |TrialBalance(chart, lines)| ==>
            TrialBalance(chart, lines)[j].account != TrialBalance(chart, lines)[i].account
  {
    hide Aggregate, AccountSum, NetDebit, Get;
    AggregateDistinct(chart, lines);
    var m := Aggregate(chart, lines);
    GetAt(m, i);
    AggregateIsAccountSum(chart, lines, m[i].account);
    AccountSumIsNetDebit(chart, lines, m[i].account);
  }

  lemma {:induction false} GetAt(m: Balances, i: nat)
    requires DistinctAccounts(m) && i < |m|
    ensures Get(m, m[i].account) == m[i].balance
  {
    if i > 0 {
      GetAt(m[1..], i - 1);
    }
  }

  /** Debits less credits of one account, whatever its category. */
  function NetOn(a: nat): Line -> int {
    (l: Line) => if l.account == a then l.debit - l.credit else 0
  }

  function NetDebit(lines: seq<Line>, a: nat): int { Total(NetOn(a), lines) }

  /** A signed amount seen from the debit side. */
  function Signed(c: Category, v: int): int {
    if DebitNormal(c) then v else -v
  }

  lemma {:induction false} AccountSumIsNetDebit(chart: Chart, lines: seq<Line>, a: nat)
    requires a < |chart|
    ensures AccountSum(chart, lines, a) == Signed(chart[a], NetDebit(lines, a))
  {
    if lines != [] {
      AccountSumIsNetDebit(chart, lines[..|lines| - 1], a);
    }
  }

  /** For every posted history and date the trial balance is in balance. */
  lemma TrialBalanceBalances(chart: Chart, journals: seq<Journal>, asOf: Time)
    requires PostedOnChart(chart, journals) && PostedBalanced(journals)
    ensures OnChart(chart, PostedUpTo(journals, asOf))
    ensures var rows := TrialBalance(chart, PostedUpTo(journals, asOf));
            TotalDebit(rows) == TotalCredit(rows)
  {
    PostedUpToOnChart(chart, journals, asOf);
    PostedUpToBalanced(journals, asOf);
    TrialBalanceColumns(chart, PostedUpTo(journals, asOf));
  }

  /** Accounts without a row have nothing to show. */
  lemma UnlistedAccountsAreZero(chart: Chart, lines: seq<Line>, a: nat)
    requires OnChart(chart, lines) && a < |chart|
    requires forall i :: 0 <= i < |TrialBalance(chart, lines)| ==> TrialBalance(chart, lines)[i].account != a
    ensures NetDebit(lines, a) == 0
  {
    AggregateDistinct(chart, lines);
    AggregateIsAccountSum(chart, lines, a);
    AccountSumIsNetDebit(chart, lines, a);
    var m, rows := Aggregate(chart, lines), TrialBalance(chart, lines);
    forall i | 0 <= i < |m|
      ensures m[i].account != a
    {
      assert rows[i] == TrialRowOf(chart, m[i]);
    }
    GetNothing(m, a);
  }

  lemma {:induction false} GetNothing(m: Balances, a: nat)
    requires forall i :: 0 <= i < |m| ==> m[i].account != a
    ensures Get(m, a) == 0
  {
    if m != [] {
      GetNothing(m[1..], a);
    }
  }

  // ---- totals by category, from the lines alone -------------------------------

  /** Debits less credits of the lines on accounts of a category. */
  function NetIn(chart: Chart, c: Category): Line -> int {
    (l: Line) => if l.account < |chart| && chart[l.account] == c then l.debit - l.credit else 0
  }

  function CategoryNet(chart: Chart, lines: seq<Line>, c: Category): int { Total(NetIn(chart, c), lines) }

  lemma {:induction false} CategorySumIsNet(chart: Chart, lines: seq<Line>)
    ensures CategorySum(chart, lines, ASSET) == CategoryNet(chart, lines, ASSET)
    ensures CategorySum(chart, lines, EXPENSE) == CategoryNet(chart, lines, EXPENSE)
    ensures CategorySum(chart, lines, LIABILITY) == -CategoryNet(chart, lines, LIABILITY)
    ensures CategorySum(chart, lines, EQUITY) == -CategoryNet(chart, lines, EQUITY)
    ensures CategorySum(chart, lines, INCOME) == -CategoryNet(chart, lines, INCOME)
  {
    if lines != [] {
      CategorySumIsNet(chart, lines[..|lines| - 1]);
    }
  }

  lemma TotalsAreNet(chart: Chart, lines: seq<Line>)
    requires OnChart(chart, lines)
    ensures var m := Aggregate(chart, lines);
            && CategoryTotal(chart, m, ASSET) == CategoryNet(chart, lines, ASSET)
            && CategoryTotal(chart, m, EXPENSE) == CategoryNet(chart, lines, EXPENSE)
            && CategoryTotal(chart, m, LIABILITY) == -CategoryNet(chart, lines, LIABILITY)
            && CategoryTotal(chart, m, EQUITY) == -CategoryNet(chart, lines, EQUITY)
            && CategoryTotal(chart, m, INCOME) == -CategoryNet(chart, lines, INCOME)
  {
    hide Total, CategoryTotal, Aggregate;
    CategorySumIsNet(chart, lines);
    CategoryTotalIsSum(chart, lines, ASSET);
    CategoryTotalIsSum(chart, lines, EXPENSE);
    CategoryTotalIsSum(chart, lines, LIABILITY);
    CategoryTotalIsSum(chart, lines, EQUITY);
    CategoryTotalIsSum(chart, lines, INCOME);
  }

  // ---- dashboard --------------------------------------------------------

  datatype Dashboard = Dashboard(totalAssets: int, totalLiabilities: int, totalEquity: int,
      netIncomeSinceInception: int)

  method BuildDashboard(chart: Chart, lines: seq<Line>) returns (d: Dashboard)
    requires OnChart(chart, lines)
    ensures d == DashboardOf(chart, lines)
    ensures d.totalAssets == CategoryNet(chart, lines, ASSET)
    ensures d.totalLiabilities == -CategoryNet(chart, lines, LIABILITY)
    ensures d.netIncomeSinceInception == -CategoryNet(chart, lines, INCOME) - CategoryNet(chart, lines, EXPENSE)
    ensures d.totalEquity == -CategoryNet(chart, lines, EQUITY) + d.netIncomeSinceInception
    ensures d.totalAssets - (d.totalLiabilities + d.totalEquity) == SumDebit(lines) - SumCredit(lines)
  {
    var balances := AggregateBalancesAsOf(chart, lines);
    AggregateDistinct(chart, lines);
    var totalAssets, totalLiabilities, totalEquity, totalIncome, totalExpenses := 0, 0, 0, 0, 0;
    assert balances[0..] == balances;
    for i := 0 to |balances|
      invariant totalAssets + CategoryTotal(chart, balances[i..], ASSET) == CategoryTotal(chart, balances, ASSET)
      invariant totalLiabilities + CategoryTotal(chart, balances[i..], LIABILITY)
                == CategoryTotal(chart, balances, LIABILITY)
      invariant totalEquity + CategoryTotal(chart, balances[i..], EQUITY) == CategoryTotal(chart, balances, EQUITY)
      invariant totalIncome + CategoryTotal(chart, balances[i..], INCOME) == CategoryTotal(chart, balances, INCOME)
      invariant totalExpenses + CategoryTotal(chart, balances[i..], EXPENSE) == CategoryTotal(chart, balances, EXPENSE)
    {
      var e := balances[i];
      assert balances[i..][0] == e && balances[i..][1..] == balances[i + 1..];
      match chart[e.account] {
        case ASSET => totalAssets := totalAssets + e.balance;
        case LIABILITY => totalLiabilities := totalLiabilities + e.balance;
        case EQUITY => totalEquity := totalEquity + e.balance;
        case INCOME => totalIncome := totalIncome + e.balance;
        case EXPENSE => totalExpenses := totalExpenses + e.balance;
      }
    }
    d := Dashboard(totalAssets, totalLiabilities, totalEquity + totalIncome - totalExpenses,
      totalIncome - totalExpenses);
    AccountingEquation(chart, lines);
    TotalsAreNet(chart, lines);
  }

  function DashboardOf(chart: Chart, lines: seq<Line>): Dashboard
    requires OnChart(chart, lines)
  {
    var m := Aggregate(chart, lines);
    var netIncome := CategoryTotal(chart, m, INCOME) - CategoryTotal(chart, m, EXPENSE);
    Dashboard(CategoryTotal(chart, m, ASSET), CategoryTotal(chart, m, LIABILITY),
      CategoryTotal(chart, m, EQUITY) + netIncome, netIncome)
  }

  /** Assets less liabilities, equity and net income: the imbalance of the lines, whatever they are. */
  lemma AccountingEquation(chart: Chart, lines: seq<Line>)
    requires OnChart(chart, lines)
    ensures var d := DashboardOf(chart, lines);
            d.totalAssets - (d.totalLiabilities + d.totalEquity) == SumDebit(lines) - SumCredit(lines)
  {
    CategoryTotalIsSum(chart, lines, ASSET);
    CategoryTotalIsSum(chart, lines, EXPENSE);
    CategoryTotalIsSum(chart, lines, LIABILITY);
    CategoryTotalIsSum(chart, lines, EQUITY);
    CategoryTotalIsSum(chart, lines, INCOME);
    CategoriesPartition(chart, lines);
  }

  /** On every date the dashboard's assets equal its liabilities plus its equity. */
  lemma DashboardBalances(chart: Chart, journals: seq<Journal>, asOf: Time)
    requires PostedOnChart(chart, journals) && PostedBalanced(journals)
    ensures OnChart(chart, PostedUpTo(journals, asOf))
    ensures var d := DashboardOf(chart, PostedUpTo(journals, asOf));
            d.totalAssets == d.totalLiabilities + d.totalEquity
  {
    PostedUpToOnChart(chart, journals, asOf);
    PostedUpToBalanced(journals, asOf);
    AccountingEquation(chart, PostedUpTo(journals, asOf));
  }

  // ---- balance sheet ----------------------------------------------------

  datatype BalanceSheet = BalanceSheet(totalAssets: int, totalLiabilities: int, totalEquity: int,
      netIncomeSinceInception: int, balanced: bool)

  function IncomeOrExpense(): Category -> bool { (c: Category) => c == INCOME || c == EXPENSE }

  /** lines.filter: the lines of the accounts whose category is wanted. */
  function LinesOf(chart: Chart, lines: seq<Line>, wanted: Category -> bool): (r: seq<Line>)
    requires OnChart(chart, lines)
    ensures OnChart(chart, r)
  {
    if lines == [] then []
    else
      var l := lines[|lines| - 1];
      LinesOf(chart, lines[..|lines| - 1], wanted) + (if wanted(chart[l.account]) then [l] else [])
  }

  function SumBalances(m: Balances): int {
    if m == [] then 0 else m[0].balance + SumBalances(m[1..])
  }

  /** The sum of the balances of the wanted categories, as the reports compute it. */
  function SumOf(chart: Chart, lines: seq<Line>, wanted: Category -> bool): int
    requires OnChart(chart, lines)
  {
    SumBalances(Aggregate(chart, LinesOf(chart, lines, wanted)))
  }

  function BalanceSheetOf(chart: Chart, lines: seq<Line>): BalanceSheet
    requires OnChart(chart, lines)
  {
    var m := Aggregate(chart, lines);
    var netIncome := SumOf(chart, lines, IncomeOrExpense());
    var totalAssets, totalLiabilities := CategoryTotal(chart, m, ASSET), CategoryTotal(chart, m, LIABILITY);
    var totalEquity := CategoryTotal(chart, m, EQUITY) + netIncome;
    BalanceSheet(totalAssets, totalLiabilities, totalEquity, netIncome,
      Abs(totalAssets - (totalLiabilities + totalEquity)) < 1)
  }

  /** Effect of a line when its category is wanted. */
  function EffectWanted(chart: Chart, wanted: Category -> bool): Line -> int {
    (l: Line) =>
      if l.account < |chart| && wanted(chart[l.account]) then BalanceEffect(chart[l.account], l.debit, l.credit) else 0
  }

  lemma {:induction false} PutSum(m: Balances, a: nat, v: int)
    ensures SumBalances(Put(m, a, v)) == SumBalances(m) - Get(m, a) + v
  {
    if m == [] {
      assert [Entry(a, v)][1..] == [];
    } else if m[0].account == a {
      assert ([Entry(a, v)] + m[1..])[1..] == m[1..];
    } else {
      assert ([m[0]] + Put(m[1..], a, v))[1..] == Put(m[1..], a, v);
      PutSum(m[1..], a, v);
    }
  }

  /** Filtering, aggregating per account and summing is summing the wanted effects line by line. */
  lemma {:induction false} SumOfIsTotal(chart: Chart, lines: seq<Line>, wanted: Category -> bool)
    requires OnChart(chart, lines)
    ensures SumOf(chart, lines, wanted) == Total(EffectWanted(chart, wanted), lines)
  {
    if lines != [] {
      var before, l := lines[..|lines| - 1], lines[|lines| - 1];
      SumOfIsTotal(chart, before, wanted);
      var kept := LinesOf(chart, before, wanted);
      if wanted(chart[l.account]) {
        assert (kept + [l])[..|kept|] == kept;
        var m := Aggregate(chart, kept);
        PutSum(m, l.account, Get(m, l.account) + BalanceEffect(chart[l.account], l.debit, l.credit));
      } else {
        assert kept + [] == kept;
      }
    }
  }

  lemma {:induction false} IncomeAndExpense(chart: Chart, lines: seq<Line>)
    ensures Total(EffectWanted(chart, IncomeOrExpense()), lines)
            == CategorySum(chart, lines, INCOME) + CategorySum(chart, lines, EXPENSE)
  {
    if lines != [] {
      IncomeAndExpense(chart, lines[..|lines| - 1]);
      var l := lines[|lines| - 1];
      assert EffectWanted(chart, IncomeOrExpense())(l) == EffectIn(chart, INCOME)(l) + EffectIn(chart, EXPENSE)(l);
    }
  }

  lemma IncomeAndExpenseNet(chart: Chart, lines: seq<Line>)
    requires OnChart(chart, lines)
    ensures SumOf(chart, lines, IncomeOrExpense())
         == -CategoryNet(chart, lines, INCOME) + CategoryNet(chart, lines, EXPENSE)
  {
    SumOfIsTotal(chart, lines, IncomeOrExpense());
    IncomeAndExpense(chart, lines);
    CategorySumIsNet(chart, lines);
  }

  /** The amounts of the balance sheet from the lines alone: its net income is income plus expenses. */
  lemma BalanceSheetMeans(chart: Chart, lines: seq<Line>)
    requires OnChart(chart, lines)
    ensures var sheet := BalanceSheetOf(chart, lines);
            && sheet.totalAssets == CategoryNet(chart, lines, ASSET)
            && sheet.totalLiabilities == -CategoryNet(chart, lines, LIABILITY)
            && sheet.netIncomeSinceInception == -CategoryNet(chart, lines, INCOME) + CategoryNet(chart, lines, EXPENSE)
            && sheet.totalEquity == -CategoryNet(chart, lines, EQUITY) + sheet.netIncomeSinceInception
            && (sheet.balanced <==> sheet.totalAssets == sheet.totalLiabilities + sheet.totalEquity)
  {
    hide Total, CategoryTotal, Aggregate, SumOf;
    TotalsAreNet(chart, lines);
    IncomeAndExpenseNet(chart, lines);
  }

  /**
    The balance sheet adds expenses to equity where the dashboard subtracts
    them: for balanced history its two sides are apart by exactly twice the
    total expenses, so it reports itself balanced only when there are none.
   */
  lemma BalanceSheetGap(chart: Chart, journals: seq<Journal>, asOf: Time)
    requires PostedOnChart(chart, journals) && PostedBalanced(journals)
    ensures OnChart(chart, PostedUpTo(journals, asOf))
    ensures var lines := PostedUpTo(journals, asOf);
            var sheet := BalanceSheetOf(chart, lines);
            var expenses := CategoryTotal(chart, Aggregate(chart, lines), EXPENSE);
            && sheet.totalLiabilities + sheet.totalEquity - sheet.totalAssets == 2 * expenses
            && (sheet.balanced <==> expenses == 0)
            && sheet.netIncomeSinceInception == DashboardOf(chart, lines).netIncomeSinceInception + 2 * expenses
  {
    PostedUpToOnChart(chart, journals, asOf);
    PostedUpToBalanced(journals, asOf);
    var lines := PostedUpTo(journals, asOf);
    AccountingEquation(chart, lines);
    SumOfIsTotal(chart, lines, IncomeOrExpense());
    IncomeAndExpense(chart, lines);
    CategoryTotalIsSum(chart, lines, INCOME);
    CategoryTotalIsSum(chart, lines, EXPENSE);
  }

  /** A cent of expense paid in cash. */
  const FEE: seq<Line> := [Line(0, 1, 0), Line(1, 0, 1)]

  lemma TotalOfTwo(f: Line -> int, lines: seq<Line>)
    requires |lines| == 2
    ensures Total(f, lines) == f(lines[0]) + f(lines[1])
  {
    TotalSnoc(f, [], lines[0]);
    TotalSnoc(f, [lines[0]], lines[1]);
    assert lines == [lines[0]] + [lines[1]] && [] + [lines[0]] == [lines[0]];
    assert Total(f, []) == 0;
  }

  /** One balanced journal with an expense is enough: the balance sheet reports itself unbalanced. */
  lemma OneExpenseUnbalances()
    ensures var chart, journals := [EXPENSE, ASSET], [Journal(0, POSTED, FEE)];
            && PostedOnChart(chart, journals) && PostedBalanced(journals) && OnChart(chart, PostedUpTo(journals, 0))
            && !BalanceSheetOf(chart, PostedUpTo(journals, 0)).balanced
  {
    var chart, journals := [EXPENSE, ASSET], [Journal(0, POSTED, FEE)];
    TotalOfTwo(DebitOf(), FEE);
    TotalOfTwo(CreditOf(), FEE);
    TotalOfTwo(EffectIn(chart, EXPENSE), FEE);
    assert journals[..0] == [] && PostedUpTo(journals, 0) == FEE;
    hide Total, BalanceSheetOf, CategoryTotal, Aggregate;
    BalanceSheetGap(chart, journals, 0);
    CategoryTotalIsSum(chart, FEE, EXPENSE);
  }

  // ---- changes in equity ------------------------------------------------

  datatype EquityChanges = EquityChanges(openingEquity: int, netIncomeForPeriod: int, equityMovement: int,
      closingEquity: int, reconciles: bool)

  function EquityOnly(): Category -> bool { (c: Category) => c == EQUITY }

  function ChangesInEquity(chart: Chart, journals: seq<Journal>, from: Time, to: Time): EquityChanges
    requires PostedOnChart(chart, journals)
  {
    PostedUpToOnChart(chart, journals, from - 1);
    PostedUpToOnChart(chart, journals, to);
    PostedBetweenOnChart(chart, journals, from, to);
    var linesAtStart := PostedUpTo(journals, from - 1);
    var linesAtEnd := PostedUpTo(journals, to);
    var periodLines := PostedBetween(journals, from, to);
    var openingEquity := SumOf(chart, linesAtStart, EquityOnly()) + SumOf(chart, linesAtStart, IncomeOrExpense());
    var equityMovement := SumOf(chart, periodLines, EquityOnly());
    var netIncomeForPeriod := SumOf(chart, periodLines, IncomeOrExpense());
    var closingEquity := SumOf(chart, linesAtEnd, EquityOnly()) + SumOf(chart, linesAtEnd, IncomeOrExpense());
    EquityChanges(openingEquity, netIncomeForPeriod, equityMovement, closingEquity,
                  Abs(closingEquity - (openingEquity + equityMovement + netIncomeForPeriod)) < 1)
  }

  /** For every history and every period, opening plus movement plus income is the independently computed closing. */
  lemma ChangesInEquityReconcile(chart: Chart, journals: seq<Journal>, from: Time, to: Time)
    requires PostedOnChart(chart, journals) && from <= to + 1
    ensures ChangesInEquity(chart, journals, from, to).reconciles
  {
    PostedUpToOnChart(chart, journals, from - 1);
    PostedUpToOnChart(chart, journals, to);
    PostedBetweenOnChart(chart, journals, from, to);
    PeriodSumTelescopes(chart, journals, from, to, EquityOnly());
    PeriodSumTelescopes(chart, journals, from, to, IncomeOrExpense());
  }

  lemma {:induction false} EquityNet(chart: Chart, lines: seq<Line>)
    ensures Total(EffectWanted(chart, EquityOnly()), lines) == -CategoryNet(chart, lines, EQUITY)
  {
    if lines != [] {
      EquityNet(chart, lines[..|lines| - 1]);
    }
  }

  lemma SumsAreNet(chart: Chart, lines: seq<Line>)
    requires OnChart(chart, lines)
    ensures SumOf(chart, lines, EquityOnly()) == -CategoryNet(chart, lines, EQUITY)
    ensures SumOf(chart, lines, IncomeOrExpense())
         == -CategoryNet(chart, lines, INCOME) + CategoryNet(chart, lines, EXPENSE)
  {
    SumOfIsTotal(chart, lines, EquityOnly());
    EquityNet(chart, lines);
    IncomeAndExpenseNet(chart, lines);
  }

  /** What the three categories of equity come to, expenses added to income as the statement does. */
  function EquityOf(chart: Chart, lines: seq<Line>): int {
    -CategoryNet(chart, lines, EQUITY) - CategoryNet(chart, lines, INCOME) + CategoryNet(chart, lines, EXPENSE)
  }

  /**
    The amounts of the statement from the lines alone. Its closing equity is
    the balance sheet's; its net income exceeds income less expenses by twice
    the period's expenses, so it is right exactly when there are none.
   */
  lemma ChangesInEquityMeans(chart: Chart, journals: seq<Journal>, from: Time, to: Time)
    requires PostedOnChart(chart, journals)
    ensures OnChart(chart, PostedUpTo(journals, to))
    ensures var r, period := ChangesInEquity(chart, journals, from, to), PostedBetween(journals, from, to);
            var trueIncome := -CategoryNet(chart, period, INCOME) - CategoryNet(chart, period, EXPENSE);
            && r.openingEquity == EquityOf(chart, PostedUpTo(journals, from - 1))
            && r.equityMovement == -CategoryNet(chart, period, EQUITY)
            && r.netIncomeForPeriod == -CategoryNet(chart, period, INCOME) + CategoryNet(chart, period, EXPENSE)
            && r.closingEquity == EquityOf(chart, PostedUpTo(journals, to))
            && r.closingEquity == BalanceSheetOf(chart, PostedUpTo(journals, to)).totalEquity
            && (r.netIncomeForPeriod == trueIncome <==> CategoryNet(chart, period, EXPENSE) == 0)
  {
    hide SumOf, CategoryNet, PostedUpTo, PostedBetween, BalanceSheetOf;
    PostedUpToOnChart(chart, journals, from - 1);
    PostedUpToOnChart(chart, journals, to);
    PostedBetweenOnChart(chart, journals, from, to);
    SumsAreNet(chart, PostedUpTo(journals, from - 1));
    SumsAreNet(chart, PostedUpTo(journals, to));
    SumsAreNet(chart, PostedBetween(journals, from, to));
    BalanceSheetMeans(chart, PostedUpTo(journals, to));
  }

  lemma PeriodSumTelescopes(chart: Chart, journals: seq<Journal>, from: Time, to: Time, wanted: Category -> bool)
    requires from <= to + 1
    requires OnChart(chart, PostedUpTo(journals, to)) && OnChart(chart, PostedUpTo(journals, from - 1))
             && OnChart(chart, PostedBetween(journals, from, to))
    ensures SumOf(chart, PostedUpTo(journals, to), wanted)
         == SumOf(chart, PostedUpTo(journals, from - 1), wanted)
           + SumOf(chart, PostedBetween(journals, from, to), wanted)
  {
    SumOfIsTotal(chart, PostedUpTo(journals, to), wanted);
    SumOfIsTotal(chart, PostedUpTo(journals, from - 1), wanted);
    SumOfIsTotal(chart, PostedBetween(journals, from, to), wanted);
    PeriodTelescopes(EffectWanted(chart, wanted), journals, from, to);
  }

  // ---- account activity -------------------------------------------------

  /** Lines of one account. */
  function OfAccount(lines: seq<Line>, a: nat): (r: seq<Line>)
    ensures forall i :: 0 <= i < |r| ==> r[i].account == a
  {
    if lines == [] then []
    else OfAccount(lines[..|lines| - 1], a) + (if lines[|lines| - 1].account == a then [lines[|lines| - 1]] else [])
  }

  lemma {:induction false} OfAccountSum(chart: Chart, lines: seq<Line>, a: nat)
    ensures AccountSum(chart, OfAccount(lines, a), a) == AccountSum(chart, lines, a)
  {
    if lines != [] {
      var before, l := lines[..|lines| - 1], lines[|lines| - 1];
      OfAccountSum(chart, before, a);
      if l.account == a {
        TotalSnoc(EffectOn(chart, a), OfAccount(before, a), l);
      } else {
        assert OfAccount(before, a) + [] == OfAccount(before, a);
      }
    }
  }

  lemma NoLines(f: Line -> int, lines: seq<Line>)
    requires lines == []
    ensures Total(f, lines) == 0
  {
  }

  ghost predicate DatesAscend(journals: seq<Journal>) {
    forall i, j :: 0 <= i < j < |journals| ==> journals[i].postingDate <= journals[j].postingDate
  }

  /** A journal put behind the last one that is not dated later. */
  function InsertByDate(journals: seq<Journal>, x: Journal): seq<Journal> {
    if journals == [] || journals[|journals| - 1].postingDate <= x.postingDate then journals + [x]
    else InsertByDate(journals[..|journals| - 1], x) + [journals[|journals| - 1]]
  }

  lemma {:induction false} InsertByDateOrders(journals: seq<Journal>, x: Journal)
    requires DatesAscend(journals)
    ensures multiset(InsertByDate(journals, x)) == multiset(journals) + multiset{x}
    ensures DatesAscend(InsertByDate(journals, x))
  {
    if journals == [] || journals[|journals| - 1].postingDate <= x.postingDate {
    } else {
      var before, last := journals[..|journals| - 1], journals[|journals| - 1];
      assert journals == before + [last];
      InsertByDateOrders(before, x);
      EndsLatest(before, x, last, InsertByDate(before, x));
    }
  }

  lemma EndsLatest(before: seq<Journal>, x: Journal, last: Journal, r: seq<Journal>)
    requires multiset(r) == multiset(before) + multiset{x} && DatesAscend(r)
    requires x.postingDate <= last.postingDate
    requires forall i :: 0 <= i < |before| ==> before[i].postingDate <= last.postingDate
    ensures DatesAscend(r + [last])
  {
    forall i | 0 <= i < |r|
      ensures r[i].postingDate <= last.postingDate
    {
      assert r[i] in multiset(r);
      assert r[i] == x || r[i] in before;
    }
  }

  /** orderBy: postingDate, ascending. */
  function ByDate(journals: seq<Journal>): (r: seq<Journal>)
    ensures DatesAscend(r) && multiset(r) == multiset(journals)
  {
    if journals == [] then []
    else
      var before, last := journals[..|journals| - 1], journals[|journals| - 1];
      assert journals == before + [last];
      InsertByDateOrders(ByDate(before), last);
      InsertByDate(ByDate(before), last)
  }

  lemma PostedBetweenSnoc(f: Line -> int, journals: seq<Journal>, x: Journal, from: Time, to: Time)
    ensures Total(f, PostedBetween(journals + [x], from, to))
            == Total(f, PostedBetween(journals, from, to)) + Total(f, LinesWithin(x, from, to))
  {
    assert (journals + [x])[..|journals|] == journals;
    TotalConcat(f, PostedBetween(journals, from, to), LinesWithin(x, from, to));
  }

  lemma {:induction false} InsertedTotal(f: Line -> int, journals: seq<Journal>, x: Journal, from: Time, to: Time)
    requires DatesAscend(journals)
    ensures Total(f, PostedBetween(InsertByDate(journals, x), from, to))
         == Total(f, PostedBetween(journals, from, to)) + Total(f, LinesWithin(x, from, to))
  {
    hide Total, PostedBetween;
    if journals == [] || journals[|journals| - 1].postingDate <= x.postingDate {
      PostedBetweenSnoc(f, journals, x, from, to);
    } else {
      var before, last := journals[..|journals| - 1], journals[|journals| - 1];
      assert journals == before + [last];
      InsertedTotal(f, before, x, from, to);
      PostedBetweenSnoc(f, before, last, from, to);
      PostedBetweenSnoc(f, InsertByDate(before, x), last, from, to);
    }
  }

  /** The order of the journals does not change what a period adds up to. */
  lemma {:induction false} ByDateTotal(f: Line -> int, journals: seq<Journal>, from: Time, to: Time)
    ensures Total(f, PostedBetween(ByDate(journals), from, to)) == Total(f, PostedBetween(journals, from, to))
  {
    if journals != [] {
      var before, last := journals[..|journals| - 1], journals[|journals| - 1];
      hide Total, PostedBetween;
      assert journals == before + [last];
      ByDateTotal(f, before, from, to);
      InsertedTotal(f, ByDate(before), last, from, to);
      PostedBetweenSnoc(f, before, last, from, to);
    }
  }

  datatype Activity = Activity(openingBalance: int, balances: seq<int>, closingBalance: int)

  /**
    Opening balance from everything before the period, then a running balance
    per line, in the order of posting dates. The closing balance is the account's as-of balance at the end
    of the period, and every running balance is the opening balance plus the
    lines so far.
   */
  method AccountActivity(chart: Chart, journals: seq<Journal>, account: nat, from: Time, to: Time) returns (r: Activity)
    requires PostedOnChart(chart, journals) && account < |chart|
    ensures r.openingBalance == AccountSum(chart, PostedUpTo(journals, from - 1), account)
    ensures var periodLines := OfAccount(PostedBetween(ByDate(journals), from, to), account);
            && |r.balances| == |periodLines|
            && forall i :: 0 <= i < |periodLines| ==>
               r.balances[i] == r.openingBalance + AccountSum(chart, periodLines[..i + 1], account)
    ensures r.closingBalance == if r.balances == [] then r.openingBalance else r.balances[|r.balances| - 1]
    ensures from <= to + 1 ==>
              OnChart(chart, PostedUpTo(journals, to))
                && r.closingBalance == Get(Aggregate(chart, PostedUpTo(journals, to)), account)
  {
    hide Total, Aggregate, Get, OfAccount, PostedUpTo, PostedBetween, ByDate;
    var linesBefore := OfAccount(PostedUpTo(journals, from - 1), account);
    var openingBalances := AggregateBalancesAsOf(chart, linesBefore);
    OfAccountSum(chart, PostedUpTo(journals, from - 1), account);
    var openingBalance := Get(openingBalances, account);
    var periodLines := OfAccount(PostedBetween(ByDate(journals), from, to), account);
    var runningBalance := openingBalance;
    var entries := [];
    NoLines(EffectOn(chart, account), periodLines[..0]);
    for i := 0 to |periodLines|
      invariant runningBalance == openingBalance + AccountSum(chart, periodLines[..i], account)
      invariant |entries| == i
      invariant forall k :: 0 <= k < i ==>
                entries[k] == openingBalance + AccountSum(chart, periodLines[..k + 1], account)
      invariant runningBalance == if entries == [] then openingBalance else entries[|entries| - 1]
    {
      var l := periodLines[i];
      assert periodLines[..i + 1] == periodLines[..i] + [l];
      TotalSnoc(EffectOn(chart, account), periodLines[..i], l);
      runningBalance := runningBalance + BalanceEffect(chart[account], l.debit, l.credit);
      entries := entries + [runningBalance];
    }
    assert periodLines[..|periodLines|] == periodLines;
    r := Activity(openingBalance, entries, runningBalance);
    if from <= to + 1 {
      PostedUpToOnChart(chart, journals, to);
      OfAccountSum(chart, PostedBetween(ByDate(journals), from, to), account);
      ByDateTotal(EffectOn(chart, account), journals, from, to);
      PeriodTelescopes(EffectOn(chart, account), journals, from, to);
      AggregateIsAccountSum(chart, PostedUpTo(journals, to), account);
    }
  }
}
