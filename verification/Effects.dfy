/**
  What a change or an approval does to books, cash and customers, said in
  terms of balances, dates and statuses alone. Nothing here mentions how lines
  are built, which helper moves cash, or which checks are called.
 */
module Effects {
  import opened Wrappers
  import opened Money
  import opened Calendar
  import opened GeneralLedger
  import opened LedgerReports
  import opened AccountingEntries
  import opened LedgerBooks
  import opened CashDesk
  import opened Handlers
  import opened Approvals
  import opened Postings
  import CustomerMerge

  // ---- open periods -----------------------------------------------------

  ghost predicate FirstCovering(periods: seq<Period>, date: Time, i: nat) {
    && i < |periods| && periods[i].startDate <= date <= periods[i].endDate
    && forall k :: 0 <= k < i ==> date < periods[k].startDate || periods[k].endDate < date
  }

  /** The first period that covers the date is open. */
  ghost predicate InOpenPeriod(periods: seq<Period>, date: Time) {
    exists i: nat :: FirstCovering(periods, date, i) && periods[i].status == OPEN
  }

  ghost predicate NoneCovers(periods: seq<Period>, date: Time) {
    forall i :: 0 <= i < |periods| ==> date < periods[i].startDate || periods[i].endDate < date
  }

  /** Where the search ends. */
  lemma {:induction false} FoundAt(periods: seq<Period>, date: Time) returns (i: nat)
    ensures var p := FindPostablePeriod(periods, date);
            if p.None? then NoneCovers(periods, date) else FirstCovering(periods, date, i) && p.value == periods[i]
  {
    i := 0;
    if periods != [] && !(periods[0].startDate <= date <= periods[0].endDate) {
      var k := FoundAt(periods[1..], date);
      i := k + 1;
      assert forall m :: 1 <= m < |periods| ==> periods[m] == periods[1..][m - 1];
    }
  }

  lemma PeriodOpenMeans(periods: seq<Period>, date: Time)
    ensures var p := FindPostablePeriod(periods, date);
            p.Some? && p.value.status == OPEN <==> InOpenPeriod(periods, date)
  {
    var i := FoundAt(periods, date);
    forall k: nat | FirstCovering(periods, date, k)
      ensures FindPostablePeriod(periods, date).Some? && k == i
    {
    }
    assert FindPostablePeriod(periods, date).Some? ==> FirstCovering(periods, date, i);
  }

  // ---- what is booked -----------------------------------------------------

  /** Only balances change, each by its net debit, which raises assets and expenses and lowers the others. */
  ghost predicate BalancesMove(before: seq<Account>, after: seq<Account>, net: nat -> int) {
    && |after| == |before|
    && forall a :: 0 <= a < |before| ==>
         after[a] == before[a].(balance := before[a].balance
           + if before[a].category == ASSET || before[a].category == EXPENSE then net(a) else -net(a))
  }

  /** One more journal, posted on that date, with these net debits; the balances follow it. */
  ghost predicate Booked(before: Books, after: Books, date: Time, net: nat -> int) {
    && BalancesMove(before.accounts, after.accounts, net)
    && after.periods == before.periods
    && |after.journals| == |before.journals| + 1 && before.journals <= after.journals
    && var j := after.journals[|before.journals|];
       j.status == POSTED && j.postingDate == date && forall a: nat :: NetDebit(j.lines, a) == net(a)
  }

  /** An amount on one account, seen from account `a`. */
  function On(a: nat, account: nat, amount: int): int {
    if a == account then amount else 0
  }

  function TwoSided(debited: nat, credited: nat, amount: int): nat -> int {
    (a: nat) => On(a, debited, amount) + On(a, credited, -amount)
  }

  /** The source's account pays into the destination's; each branch's settlement account takes the other side. */
  function FourSided(source: nat, sourceSettlement: nat, destination: nat, destinationSettlement: nat, amount: int)
      : nat -> int
  {
    (a: nat) =>
      On(a, sourceSettlement, amount) + On(a, source, -amount)
      + On(a, destination, amount) + On(a, destinationSettlement, -amount)
  }

  function PayrollSided(t: PayrollTotals, p: PayrollAccounts): nat -> int {
    (a: nat) =>
      On(a, p.salaryExpense, t.gross) + On(a, p.ssnitExpense, t.ssnitEmployer)
      + On(a, p.tier2Expense, t.tier2Employer) + On(a, p.payePayable, -t.paye)
      + On(a, p.ssnitPayable, -(t.ssnitEmployee + t.ssnitEmployer)) + On(a, p.tier2Payable, -t.tier2Employer)
      + On(a, p.otherPayable, -t.otherDeductions) + On(a, p.salariesPayable, -t.net)
  }

  function DisposalSided(cost: int, accumulated: int, proceeds: int, d: DisposalAccounts): nat -> int {
    (a: nat) =>
      On(a, d.accumulated, accumulated) + On(a, d.fixedAsset, -cost) + On(a, d.cash, proceeds)
      + On(a, d.gain, -Max(0, proceeds - (cost - accumulated))) + On(a, d.loss, Max(0, cost - accumulated - proceeds))
  }

  lemma NetOnLine(a: nat, l: Line)
    ensures NetOn(a)(l) == On(a, l.account, l.debit - l.credit)
  {
  }

  ghost predicate HasNet(lines: seq<Line>, net: nat -> int) {
    forall a: nat :: NetDebit(lines, a) == net(a)
  }

  lemma TwoLinesNet(debited: nat, credited: nat, amount: int)
    ensures HasNet(TwoLines(debited, credited, amount), TwoSided(debited, credited, amount))
  {
    var l := TwoLines(debited, credited, amount);
    hide Total;
    forall a: nat
      ensures NetDebit(l, a) == TwoSided(debited, credited, amount)(a)
    {
      Snoc(NetOn(a), l);
      Snoc(NetOn(a), l[..1]);
    }
  }

  lemma FourLinesNet(sourceSettlement: nat, source: nat, destination: nat, destinationSettlement: nat, amount: int)
    ensures var l := InterBranchLines(sourceSettlement, source, destination, destinationSettlement, amount);
            && HasNet(l, FourSided(source, sourceSettlement, destination, destinationSettlement, amount))
            && (IsBalanced(l) <==> amount > 0)
  {
    var l := InterBranchLines(sourceSettlement, source, destination, destinationSettlement, amount);
    hide Total;
    FourLines(DebitOf(), l);
    FourLines(CreditOf(), l);
    forall a: nat
      ensures NetDebit(l, a) == FourSided(source, sourceSettlement, destination, destinationSettlement, amount)(a)
    {
      FourLines(NetOn(a), l);
    }
  }

  ghost predicate NonNegative(t: PayrollTotals) {
    && t.gross >= 0 && t.paye >= 0 && t.ssnitEmployee >= 0 && t.ssnitEmployer >= 0 && t.tier2Employer >= 0
    && t.otherDeductions >= 0 && t.net >= 0
  }

  lemma PayrollNet(t: PayrollTotals, p: PayrollAccounts)
    requires NonNegative(t)
    ensures HasNet(BuildPayrollAccrualLines(t, p), PayrollSided(t, p))
  {
    forall a: nat
      ensures NetDebit(BuildPayrollAccrualLines(t, p), a) == PayrollSided(t, p)(a)
    {
      PayrollNetOn(t, p, a);
    }
  }

  lemma PayrollNetOn(t: PayrollTotals, p: PayrollAccounts, a: nat)
    requires NonNegative(t)
    ensures NetDebit(BuildPayrollAccrualLines(t, p), a) == PayrollSided(t, p)(a)
  {
    var l := AllPayrollLines(t, p);
    NonZeroNet(l, a);
    EightLines(NetOn(a), l);
    forall i: nat | i < 8
      ensures NetOn(a)(l[i]) == On(a, l[i].account, l[i].debit - l[i].credit)
    {
      NetOnLine(a, l[i]);
    }
    hide Total, NonZero, NetOn, On;
  }

  lemma DisposalLinesNet(cost: int, accumulated: int, proceeds: int, d: DisposalAccounts)
    requires cost >= 0 && accumulated >= 0 && proceeds >= 0
    ensures HasNet(BuildAssetDisposalLines(cost, accumulated, proceeds, d),
            DisposalSided(cost, accumulated, proceeds, d))
  {
    forall a: nat
      ensures NetDebit(BuildAssetDisposalLines(cost, accumulated, proceeds, d), a)
           == DisposalSided(cost, accumulated, proceeds, d)(a)
    {
      DisposalNetOn(cost, accumulated, proceeds, d, a);
    }
  }

  lemma DisposalNetOn(cost: int, accumulated: int, proceeds: int, d: DisposalAccounts, a: nat)
    requires cost >= 0 && accumulated >= 0 && proceeds >= 0
    ensures NetDebit(BuildAssetDisposalLines(cost, accumulated, proceeds, d), a)
         == DisposalSided(cost, accumulated, proceeds, d)(a)
  {
    NonZeroNet(AllDisposalLines(cost, accumulated, proceeds, d), a);
    DisposalNet(cost, accumulated, proceeds, d, a);
    hide NetDebit, NonZero, AllDisposalLines;
  }

  lemma LinesMove(accounts: seq<Account>, lines: seq<Line>, net: nat -> int)
    requires OnAccounts(accounts, lines) && HasNet(lines, net)
    ensures BalancesMove(accounts, ApplyLines(accounts, lines), net)
  {
    hide ApplyLines, NetDebit, AccountSum;
    forall a | 0 <= a < |accounts|
      ensures ApplyLines(accounts, lines)[a] == accounts[a].(balance := accounts[a].balance
                + if accounts[a].category == ASSET || accounts[a].category == EXPENSE then net(a) else -net(a))
    {
      ApplyLinesAdds(accounts, lines, a);
      AccountSumIsNetDebit(ChartOf(accounts), lines, a);
    }
  }

  lemma PostNewBooks(b: Books, date: Time, lines: seq<Line>, net: nat -> int)
    requires OnAccounts(b.accounts, lines) && HasNet(lines, net)
    ensures Booked(b, PostNew(b, date, lines), date, net)
  {
    hide ApplyLines, NetDebit, BalancesMove;
    LinesMove(b.accounts, lines, net);
  }

  // ---- what a handler writes ------------------------------------------------

  ghost predicate AccountsExist(b: Books, lines: seq<Line>) {
    forall i :: 0 <= i < |lines| ==> lines[i].account < |b.accounts|
  }

  ghost predicate BothExist(b: Books, a: nat, c: nat) {
    a < |b.accounts| && c < |b.accounts|
  }

  /** One holder's balance moves by `delta`, and one entry records it. */
  ghost predicate CashMoved(before: Desk, after: Desk, h: nat, t: EntryType, amount: int, delta: int) {
    && h < |before.holders|
    && after.holders == before.holders[h := before.holders[h].(balance := before.holders[h].balance + delta)]
    && after.entries == before.entries + [CashEntry(h, t, amount, before.holders[h].balance + delta)]
  }

  /** Cash and ledger together, or nothing when an account or the vault is missing or the vault does not cover it. */
  ghost predicate PaidOut(h: Holdings, r: Holdings, date: Time, vault: nat, t: EntryType, amount: int,
      debited: nat, credited: nat)
  {
    if BothExist(h.books, debited, credited) && vault < |h.desk.holders| && h.desk.holders[vault].balance >= amount
    then CashMoved(h.desk, r.desk, vault, t, amount, -amount)
         && Booked(h.books, r.books, date, TwoSided(debited, credited, amount)) && r.crm == h.crm
    else r == h
  }

  ghost predicate PaidIn(h: Holdings, r: Holdings, date: Time, vault: nat, amount: int, debited: nat, credited: nat) {
    if BothExist(h.books, debited, credited) && vault < |h.desk.holders|
    then CashMoved(h.desk, r.desk, vault, RECEIPT, amount, amount)
         && Booked(h.books, r.books, date, TwoSided(debited, credited, amount)) && r.crm == h.crm
    else r == h
  }

  ghost predicate BookedIfThere(before: Books, after: Books, date: Time, debited: nat, credited: nat, amount: int) {
    if BothExist(before, debited, credited) then Booked(before, after, date, TwoSided(debited, credited, amount))
    else after == before
  }

  /** What each change to the books does. */
  ghost predicate ChangesBooks(b: Books, c: Change, r: Books) {
    match c
    case CREATE_ACCOUNT(category) => r == b.(accounts := b.accounts + [Account(category, true, 0)])
    case SET_ACCOUNT_STATUS(a, active) =>
      r == if a < |b.accounts| then b.(accounts := b.accounts[a := b.accounts[a].(active := active)]) else b
    case CREATE_PERIOD(startDate, endDate) => r == b.(periods := b.periods + [Period(startDate, endDate, OPEN)])
    case CLOSE_PERIOD(p) =>
      r == if p < |b.periods| then b.(periods := b.periods[p := b.periods[p].(status := CLOSED)]) else b
    case LOCK_PERIOD(p) =>
      r == if p < |b.periods| then b.(periods := b.periods[p := b.periods[p].(status := LOCKED)]) else b
    case CREATE_JOURNAL(date, lines) =>
      && r.accounts == b.accounts && r.periods == b.periods
      && r.journals == b.journals + if AccountsExist(b, lines) then [Journal(date, DRAFT, lines)] else []
    case RUN_RECURRING_JOURNAL(date, template) =>
      if AccountsExist(b, template) then Booked(b, r, date, (a: nat) => NetDebit(template, a)) else r == b
    case POST_DEPRECIATION(date, expense, accumulated, amount) =>
      BookedIfThere(b, r, date, expense, accumulated, amount)
    case SETTLE_PAYROLL(date, salariesPayable, bank, net) => BookedIfThere(b, r, date, salariesPayable, bank, net)
    case POST_CUSTOMER_ENTRY(date, debited, credited, amount) => BookedIfThere(b, r, date, debited, credited, amount)
    case _ => r == b
  }

  /** What each change does. */
  ghost predicate Changes(h: Holdings, c: Change, r: Holdings) {
    match c
    case DISBURSE(date, receivable, cash, vault, amount) =>
      PaidOut(h, r, date, vault, TRANSFER_OUT, amount, receivable, cash)
    case RECORD_VAULT_ENTRY(date, vaultCash, bank, vault, t, amount) =>
      && (t == RECEIPT ==> PaidIn(h, r, date, vault, amount, vaultCash, bank))
      && (t == WITHDRAWAL ==> PaidOut(h, r, date, vault, WITHDRAWAL, amount, bank, vaultCash))
    case REGISTER_HOLDER(kind) =>
      r == h.(desk := h.desk.(holders := h.desk.holders + [Holder(kind, 0, 0, false)]))
    case SET_HOLDER_OPEN(v, open) =>
      && r.books == h.books && r.crm == h.crm && r.desk.entries == h.desk.entries
      && r.desk.holders == if v < |h.desk.holders| then h.desk.holders[v := h.desk.holders[v].(open := open)]
                           else h.desk.holders
    case _ => ChangesBooks(h.books, c, r.books) && r.desk == h.desk && r.crm == h.crm
  }

  lemma TwoLinesThere(b: Books, debited: nat, credited: nat, amount: int)
    ensures OnAccounts(b.accounts, TwoLines(debited, credited, amount)) <==> BothExist(b, debited, credited)
  {
    var l := TwoLines(debited, credited, amount);
    assert l[0].account == debited && l[1].account == credited;
  }

  lemma BookedTwoSided(b: Books, date: Time, debited: nat, credited: nat, amount: int)
    ensures BookedIfThere(b, PostIfPresent(b, date, TwoLines(debited, credited, amount)), date, debited, credited,
            amount)
  {
    TwoLinesThere(b, debited, credited, amount);
    TwoLinesNet(debited, credited, amount);
    hide Booked, PostNew, HasNet, TwoLines, OnAccounts;
    if BothExist(b, debited, credited) {
      PostNewBooks(b, date, TwoLines(debited, credited, amount), TwoSided(debited, credited, amount));
    }
  }

  lemma PerformOnBooksMeans(b: Books, c: Change)
    requires Aligned(b)
    ensures ChangesBooks(b, c, PerformOnBooks(b, c))
  {
    hide BookedIfThere, Booked, PostNew, TwoLines;
    match c {
      case RUN_RECURRING_JOURNAL(date, template) =>
        if AccountsExist(b, template) {
          PostNewBooks(b, date, template, (a: nat) => NetDebit(template, a));
        }
      case POST_DEPRECIATION(date, expense, accumulated, amount) =>
        BookedTwoSided(b, date, expense, accumulated, amount);
      case SETTLE_PAYROLL(date, salariesPayable, bank, net) => BookedTwoSided(b, date, salariesPayable, bank, net);
      case POST_CUSTOMER_ENTRY(date, debited, credited, amount) => BookedTwoSided(b, date, debited, credited, amount);
      case _ =>
    }
  }

  lemma MoveAndPostMeans(h: Holdings, date: Time, debited: nat, credited: nat, vault: nat, t: EntryType, amount: int)
    requires Aligned(h.books) && t in {RECEIPT, WITHDRAWAL, TRANSFER_OUT}
    ensures var r := MoveAndPost(h, date, TwoLines(debited, credited, amount), vault, t, amount);
            if t == RECEIPT then PaidIn(h, r, date, vault, amount, debited, credited)
            else PaidOut(h, r, date, vault, t, amount, debited, credited)
  {
    TwoLinesThere(h.books, debited, credited, amount);
    TwoLinesNet(debited, credited, amount);
    hide Booked, PostNew, HasNet, TwoLines, OnAccounts;
    if BothExist(h.books, debited, credited) {
      PostNewBooks(h.books, date, TwoLines(debited, credited, amount), TwoSided(debited, credited, amount));
    }
  }

  /** Every write does what its change says, and nothing else. */
  lemma PerformMeans(h: Holdings, c: Change)
    requires Aligned(h.books)
    ensures Changes(h, c, Perform(h, c))
  {
    hide PaidIn, PaidOut, ChangesBooks, MoveAndPost, TwoLines, PerformOnBooks;
    match c {
      case DISBURSE(date, receivable, cash, vault, amount) =>
        MoveAndPostMeans(h, date, receivable, cash, vault, TRANSFER_OUT, amount);
      case RECORD_VAULT_ENTRY(date, vaultCash, bank, vault, t, amount) =>
        if t == RECEIPT {
          MoveAndPostMeans(h, date, vaultCash, bank, vault, t, amount);
        } else if t == WITHDRAWAL {
          MoveAndPostMeans(h, date, bank, vaultCash, vault, t, amount);
        }
      case REGISTER_HOLDER(kind) =>
      case SET_HOLDER_OPEN(v, open) =>
      case _ => PerformOnBooksMeans(h.books, c);
    }
  }

  // ---- what a handler asks --------------------------------------------------

  ghost predicate Balanced(lines: seq<Line>) {
    SumDebit(lines) == SumCredit(lines) && SumDebit(lines) > 0
  }

  ghost predicate OpenVaultThere(d: Desk, v: nat) {
    v < |d.holders| && d.holders[v].kind == VAULT && d.holders[v].open
  }

  ghost predicate Postable(b: Books, date: Time, debited: nat, credited: nat, amount: int) {
    amount > 0 && BothExist(b, debited, credited) && InOpenPeriod(b.periods, date)
  }

  ghost predicate OneSidedLines(lines: seq<Line>) {
    forall i :: 0 <= i < |lines| ==>
      (lines[i].debit > 0 && lines[i].credit == 0) || (lines[i].debit == 0 && lines[i].credit > 0)
  }

  /** What each handler asks before it writes. */
  ghost predicate Admissible(h: Holdings, c: Change) {
    match c
    case CREATE_ACCOUNT(_) => true
    case SET_ACCOUNT_STATUS(a, _) => a < |h.books.accounts|
    case CREATE_PERIOD(startDate, endDate) =>
      forall i :: 0 <= i < |h.books.periods| ==>
        endDate < h.books.periods[i].startDate || h.books.periods[i].endDate < startDate
    case CLOSE_PERIOD(p) => p < |h.books.periods| && h.books.periods[p].status == OPEN
    case LOCK_PERIOD(p) => p < |h.books.periods| && h.books.periods[p].status == CLOSED
    case CREATE_JOURNAL(date, lines) =>
      |lines| >= 2 && OneSidedLines(lines) && Balanced(lines) && InOpenPeriod(h.books.periods, date)
    case RUN_RECURRING_JOURNAL(date, template) =>
      && Balanced(template) && InOpenPeriod(h.books.periods, date)
      && forall i :: 0 <= i < |template| ==>
           template[i].account < |h.books.accounts| && h.books.accounts[template[i].account].active
    case POST_DEPRECIATION(date, expense, accumulated, amount) => Postable(h.books, date, expense, accumulated, amount)
    case SETTLE_PAYROLL(date, salariesPayable, bank, _) =>
      BothExist(h.books, salariesPayable, bank) && InOpenPeriod(h.books.periods, date)
    case POST_CUSTOMER_ENTRY(date, debited, credited, amount) => Postable(h.books, date, debited, credited, amount)
    case DISBURSE(date, receivable, cash, vault, amount) =>
      OpenVaultThere(h.desk, vault) && Postable(h.books, date, receivable, cash, amount)
    case RECORD_VAULT_ENTRY(date, vaultCash, bank, vault, t, amount) =>
      (t == RECEIPT || t == WITHDRAWAL) && OpenVaultThere(h.desk, vault)
        && Postable(h.books, date, vaultCash, bank, amount)
    case REGISTER_HOLDER(_) => true
    case SET_HOLDER_OPEN(v, _) => v < |h.desk.holders|
  }

  lemma CanPostMeans(b: Books, date: Time, debited: nat, credited: nat, amount: int)
    ensures CanPost(b, date, TwoLines(debited, credited, amount)) <==> Postable(b, date, debited, credited, amount)
  {
    TwoLinesThere(b, debited, credited, amount);
    PeriodOpenMeans(b.periods, date);
    PositiveWhenBalanced(debited, credited, amount);
    hide TwoLines, OnAccounts, IsBalanced, FindPostablePeriod, InOpenPeriod;
  }

  lemma OneSidedMeans(lines: seq<Line>)
    ensures OneSidedLines(lines)
            <==> forall i :: 0 <= i < |lines| ==>
                   && lines[i].debit >= 0 && lines[i].credit >= 0
                   && !(lines[i].debit > 0 && lines[i].credit > 0)
                   && !(lines[i].debit == 0 && lines[i].credit == 0)
  {
  }

  /** A handler goes on to write exactly when it finds this. */
  lemma AdmitsMeans(h: Holdings, c: Change)
    ensures Admits(h, c) <==> Admissible(h, c)
  {
    hide CanPost, Postable, TwoLines, InOpenPeriod, FindPostablePeriod, OneSidedLines, BothExist;
    match c {
      case CREATE_JOURNAL(date, lines) =>
        OneSidedMeans(lines);
        PeriodOpenMeans(h.books.periods, date);
      case RUN_RECURRING_JOURNAL(date, template) => RecurringAdmitted(h.books, date, template);
      case POST_DEPRECIATION(date, expense, accumulated, amount) =>
        DepreciationAdmitted(h.books, date, expense, accumulated, amount);
      case SETTLE_PAYROLL(date, salariesPayable, bank, _) => SettlementAdmitted(h.books, date, salariesPayable, bank);
      case POST_CUSTOMER_ENTRY(date, debited, credited, amount) =>
        CanPostMeans(h.books, date, debited, credited, amount);
      case DISBURSE(date, receivable, cash, vault, amount) => CanPostMeans(h.books, date, receivable, cash, amount);
      case RECORD_VAULT_ENTRY(date, vaultCash, bank, vault, t, amount) =>
        CanPostMeans(h.books, date, vaultCash, bank, amount);
        CanPostMeans(h.books, date, bank, vaultCash, amount);
        EitherWay(h.books, date, vaultCash, bank, amount);
      case _ =>
    }
  }

  lemma EitherWay(b: Books, date: Time, x: nat, y: nat, amount: int)
    ensures Postable(b, date, x, y, amount) <==> Postable(b, date, y, x, amount)
  {
  }

  lemma RecurringAdmitted(b: Books, date: Time, template: seq<Line>)
    ensures CanPost(b, date, template) && AllActive(b.accounts, template)
            <==> && Balanced(template) && InOpenPeriod(b.periods, date)
                 && forall i :: 0 <= i < |template| ==>
                      template[i].account < |b.accounts| && b.accounts[template[i].account].active
  {
    PeriodOpenMeans(b.periods, date);
    hide FindPostablePeriod, InOpenPeriod, Total;
  }

  lemma DepreciationAdmitted(b: Books, date: Time, expense: nat, accumulated: nat, amount: int)
    ensures amount > 0 && BothThere(b, expense, accumulated) && PeriodOpen(b, date)
            <==> Postable(b, date, expense, accumulated, amount)
  {
    PeriodOpenMeans(b.periods, date);
    hide FindPostablePeriod, InOpenPeriod;
  }

  lemma SettlementAdmitted(b: Books, date: Time, salariesPayable: nat, bank: nat)
    ensures BothThere(b, salariesPayable, bank) && PeriodOpen(b, date)
            <==> BothExist(b, salariesPayable, bank) && InOpenPeriod(b.periods, date)
  {
    PeriodOpenMeans(b.periods, date);
    hide FindPostablePeriod, InOpenPeriod;
  }

  /** A handler that nobody comes between. */
  lemma DirectMeans(h: Holdings, c: Change)
    requires Aligned(h.books)
    ensures if Admissible(h, c) then Changes(h, c, Direct(h, c)) else Direct(h, c) == h
  {
    AdmitsMeans(h, c);
    PerformMeans(h, c);
    hide Admits, Admissible, Perform, Changes;
  }

  // ---- what an approval does --------------------------------------------------

  /** The amount leaves the source and reaches the destination; nobody else's balance moves; both sides are recorded. */
  ghost predicate Transferred(before: Desk, after: Desk, from: nat, to: nat, amount: int) {
    && from < |before.holders| && to < |before.holders| && |after.holders| == |before.holders|
    && after.holders[from] == before.holders[from].(balance := before.holders[from].balance - amount)
    && after.holders[to] == before.holders[to].(balance := before.holders[to].balance + amount)
    && (forall h :: 0 <= h < |before.holders| && h != from && h != to ==> after.holders[h] == before.holders[h])
    && after.entries == before.entries + [CashEntry(from, TRANSFER_OUT, amount, before.holders[from].balance - amount),
                                          CashEntry(to, TRANSFER_IN, amount, before.holders[to].balance + amount)]
  }

  /** A waiting journal: posted with its balances moved once, or rejected with none moved. */
  ghost predicate Posted(b: Books, j: nat, r: Books) {
    && j < |b.journals| == |r.journals| && r.periods == b.periods
    && (forall k :: 0 <= k < |b.journals| && k != j ==> r.journals[k] == b.journals[k])
    && var lines := b.journals[j].lines;
       if Balanced(lines) && InOpenPeriod(b.periods, b.journals[j].postingDate)
          && forall i :: 0 <= i < |lines| ==> lines[i].account < |b.accounts| && b.accounts[lines[i].account].active
       then r.journals[j] == b.journals[j].(status := POSTED)
            && BalancesMove(b.accounts, r.accounts, (a: nat) => NetDebit(lines, a))
       else r.journals[j] == b.journals[j].(status := JournalStatus.REJECTED) && r.accounts == b.accounts
  }

  /** Net pay is gross pay less the deductions, and something is paid. */
  ghost predicate PayAddsUp(t: PayrollTotals) {
    && t.net == t.gross - t.paye - t.ssnitEmployee - t.otherDeductions
    && t.gross + t.ssnitEmployer + t.tier2Employer > 0
  }

  function PayrollDate(env: Env): Time {
    match env.payrollEnd
    case Some(end) => end
    case None => env.now
  }

  /** Totals and amounts as the tables keep them: none is negative, and an asset has cost something. */
  ghost predicate WellStated(k: Kind, env: Env) {
    match k
    case PAYROLL_RUN_APPROVAL(t) => NonNegative(t)
    case ASSET_DISPOSAL(cost, proceeds) => cost > 0 && proceeds >= 0 && env.accumulated >= 0
    case _ => true
  }

  /** The effect of each approval on the books. */
  ghost predicate ApprovedBooks(b: Books, k: Kind, env: Env, r: Books) {
    match k
    case JOURNAL_POSTING(j) => Posted(b, j, r)
    case FINANCIAL_PERIOD_REOPEN(p) =>
      p < |b.periods| && r == b.(periods := b.periods[p := b.periods[p].(status := OPEN)])
    case INTER_BRANCH_TRANSFER(source, destination, amount) =>
      && env.fromSettlement.Some? && env.toSettlement.Some?
      && var net := FourSided(source, env.fromSettlement.value, destination, env.toSettlement.value, amount);
         if amount > 0 then Booked(b, r, env.now, net) else r == b
    case PAYROLL_RUN_APPROVAL(t) =>
      if env.payroll.Some? && InOpenPeriod(b.periods, PayrollDate(env)) && PayAddsUp(t)
      then Booked(b, r, PayrollDate(env), PayrollSided(t, env.payroll.value))
      else r == b
    case ASSET_DISPOSAL(cost, proceeds) =>
      if env.disposal.Some? && InOpenPeriod(b.periods, env.now)
      then Booked(b, r, env.now, DisposalSided(cost, env.accumulated, proceeds, env.disposal.value))
      else r == b
    case _ => r == b
  }

  ghost predicate ApprovedDesk(d: Desk, k: Kind, r: Desk) {
    match k
    case CASH_TRANSFER(from, to, amount) =>
      && from < |d.holders|
      && (d.holders[from].balance < amount ==> r == d)
      && (d.holders[from].balance >= amount && from != to ==> Transferred(d, r, from, to, amount))
    case _ => r == d
  }

  ghost predicate ApprovedCustomers(c: CustomerMerge.Crm, k: Kind, r: CustomerMerge.Crm) {
    match k
    case CUSTOMER_MERGE(primary, merged) => primary < |c.customers| && CustomerMerge.MergedInto(c, r, primary, merged)
    case _ => r == c
  }

  ghost predicate Approved(h: Holdings, k: Kind, env: Env, r: Holdings) {
    && ApprovedBooks(h.books, k, env, r.books)
    && ApprovedDesk(h.desk, k, r.desk)
    && ApprovedCustomers(h.crm, k, r.crm)
  }

  lemma WaitingJournal(b: Books, j: nat)
    requires Aligned(b) && j < |b.journals|
    ensures Posted(b, j, PostExisting(b, j))
  {
    var lines := b.journals[j].lines;
    PeriodOpenMeans(b.periods, b.journals[j].postingDate);
    hide FindPostablePeriod, InOpenPeriod, Total, ApplyLines, BalancesMove, NetDebit;
    if OnAccounts(b.accounts, lines) {
      LinesMove(b.accounts, lines, (a: nat) => NetDebit(lines, a));
    }
  }

  lemma InterBranchApproved(b: Books, source: nat, destination: nat, amount: int, env: Env)
    requires Aligned(b) && env.fromSettlement.Some? && env.toSettlement.Some?
    ensures var k := INTER_BRANCH_TRANSFER(source, destination, amount);
            ApplyToBooks(b, k, env).Some? ==> ApprovedBooks(b, k, env, ApplyToBooks(b, k, env).value)
  {
    var f, t := env.fromSettlement.value, env.toSettlement.value;
    var lines := InterBranchLines(f, source, destination, t, amount);
    FourLinesNet(f, source, destination, t, amount);
    hide Booked, HasNet, PostNew, InterBranchLines, FourSided, IsBalanced;
    if OnAccounts(b.accounts, lines) {
      PostNewBooks(b, env.now, lines, FourSided(source, f, destination, t, amount));
    }
  }

  /** An accrual that goes through: skipped, or booked as its lines net out. */
  lemma Accrued(b: Books, date: Time, lines: seq<Line>, net: nat -> int)
    requires Aligned(b) && HasNet(lines, net) && Accrue(b, date, lines).Some?
    ensures var r := Accrue(b, date, lines).value;
            if InOpenPeriod(b.periods, date) && IsBalanced(lines) then Booked(b, r, date, net) else r == b
  {
    PeriodOpenMeans(b.periods, date);
    hide FindPostablePeriod, InOpenPeriod, Booked, HasNet, PostNew, IsBalanced;
    if OnAccounts(b.accounts, lines) {
      PostNewBooks(b, date, lines, net);
    }
  }

  lemma PayrollApproved(b: Books, t: PayrollTotals, env: Env)
    requires Aligned(b) && NonNegative(t)
    ensures var k := PAYROLL_RUN_APPROVAL(t);
            ApplyToBooks(b, k, env).Some? ==> ApprovedBooks(b, k, env, ApplyToBooks(b, k, env).value)
  {
    hide Booked, HasNet, Accrue, BuildPayrollAccrualLines, PayrollSided, IsBalanced, InOpenPeriod;
    if env.payroll.Some? {
      var lines := BuildPayrollAccrualLines(t, env.payroll.value);
      PayrollNet(t, env.payroll.value);
      PayrollAccrualBalances(t, env.payroll.value);
      if Accrue(b, PayrollDate(env), lines).Some? {
        Accrued(b, PayrollDate(env), lines, PayrollSided(t, env.payroll.value));
      }
    }
  }

  lemma DisposalApproved(b: Books, cost: int, proceeds: int, env: Env)
    requires Aligned(b) && cost > 0 && proceeds >= 0 && env.accumulated >= 0
    ensures var k := ASSET_DISPOSAL(cost, proceeds);
            ApplyToBooks(b, k, env).Some? ==> ApprovedBooks(b, k, env, ApplyToBooks(b, k, env).value)
  {
    hide Booked, HasNet, Accrue, BuildAssetDisposalLines, DisposalSided, IsBalanced, InOpenPeriod;
    if env.disposal.Some? {
      var lines := BuildAssetDisposalLines(cost, env.accumulated, proceeds, env.disposal.value);
      DisposalLinesNet(cost, env.accumulated, proceeds, env.disposal.value);
      DisposalBalances(cost, env.accumulated, proceeds, env.disposal.value);
      if Accrue(b, env.now, lines).Some? {
        Accrued(b, env.now, lines, DisposalSided(cost, env.accumulated, proceeds, env.disposal.value));
      }
    }
  }

  lemma BooksApproved(b: Books, k: Kind, env: Env)
    requires Aligned(b) && WellStated(k, env)
    ensures ApplyToBooks(b, k, env).Some? ==> ApprovedBooks(b, k, env, ApplyToBooks(b, k, env).value)
  {
    hide Posted, Booked, PostExisting, Accrue, PostInterBranch, InOpenPeriod;
    match k {
      case JOURNAL_POSTING(j) => if j < |b.journals| { WaitingJournal(b, j); }
      case INTER_BRANCH_TRANSFER(source, destination, amount) =>
        if env.fromSettlement.Some? && env.toSettlement.Some? {
          InterBranchApproved(b, source, destination, amount, env);
        }
      case PAYROLL_RUN_APPROVAL(t) => PayrollApproved(b, t, env);
      case ASSET_DISPOSAL(cost, proceeds) => DisposalApproved(b, cost, proceeds, env);
      case _ =>
    }
  }

  lemma DeskApproved(d: Desk, k: Kind)
    ensures ApplyToDesk(d, k).Some? ==> ApprovedDesk(d, k, ApplyToDesk(d, k).value)
  {
  }

  lemma CustomersApproved(c: CustomerMerge.Crm, k: Kind)
    ensures ApplyToCrm(c, k).Some? ==> ApprovedCustomers(c, k, ApplyToCrm(c, k).value)
  {
    hide CustomerMerge.MergedInto, CustomerMerge.NoRecordOf, CustomerMerge.Execute;
    if k.CUSTOMER_MERGE? && k.merged < |c.customers| {
      CustomerMerge.MergeMeans(c, k.primary, k.merged);
    }
  }

  /** An approval that goes through has the effect its request asked for, and no other. */
  lemma ApplyMeans(h: Holdings, k: Kind, env: Env)
    requires Aligned(h.books) && WellStated(k, env)
    ensures Apply(h, k, env).Some? ==> Approved(h, k, env, Apply(h, k, env).value)
  {
    hide ApprovedBooks, ApprovedDesk, ApprovedCustomers, WellStated;
    BooksApproved(h.books, k, env);
    DeskApproved(h.desk, k);
    CustomersApproved(h.crm, k);
    hide ApplyToBooks, ApplyToDesk, ApplyToCrm;
  }

  // ---- when an approval fails -------------------------------------------------

  ghost predicate PayrollAccountsThere(n: nat, t: PayrollTotals, p: PayrollAccounts) {
    && (t.gross > 0 ==> p.salaryExpense < n) && (t.ssnitEmployer > 0 ==> p.ssnitExpense < n)
    && (t.tier2Employer > 0 ==> p.tier2Expense < n && p.tier2Payable < n) && (t.paye > 0 ==> p.payePayable < n)
    && (t.ssnitEmployee + t.ssnitEmployer > 0 ==> p.ssnitPayable < n) && (t.otherDeductions > 0 ==> p.otherPayable < n)
    && (t.net > 0 ==> p.salariesPayable < n)
  }

  ghost predicate DisposalAccountsThere(n: nat, cost: int, accumulated: int, proceeds: int, d: DisposalAccounts) {
    && d.fixedAsset < n && (accumulated > 0 ==> d.accumulated < n) && (proceeds > 0 ==> d.cash < n)
    && (proceeds > cost - accumulated ==> d.gain < n) && (proceeds < cost - accumulated ==> d.loss < n)
  }

  /** Something an approval needs is not there, so that its transaction rolls back. */
  ghost predicate Impossible(h: Holdings, k: Kind, env: Env) {
    var n := |h.books.accounts|;
    match k
    case CASH_TRANSFER(from, to, amount) =>
      from >= |h.desk.holders| || (h.desk.holders[from].balance >= amount && to >= |h.desk.holders|)
    case JOURNAL_POSTING(j) => j >= |h.books.journals|
    case FINANCIAL_PERIOD_REOPEN(p) => p >= |h.books.periods|
    case INTER_BRANCH_TRANSFER(source, destination, _) =>
      || env.fromSettlement.None? || env.toSettlement.None?
      || env.fromSettlement.value >= n || env.toSettlement.value >= n || source >= n || destination >= n
    case PAYROLL_RUN_APPROVAL(t) =>
      && env.payroll.Some? && InOpenPeriod(h.books.periods, PayrollDate(env)) && PayAddsUp(t)
      && !PayrollAccountsThere(n, t, env.payroll.value)
    case ASSET_DISPOSAL(cost, proceeds) =>
      && env.disposal.Some? && InOpenPeriod(h.books.periods, env.now)
      && !DisposalAccountsThere(n, cost, env.accumulated, proceeds, env.disposal.value)
    case CUSTOMER_MERGE(primary, merged) => primary >= |h.crm.customers| || merged >= |h.crm.customers|
    case OTHER => false
  }

  /** The lines that remain are on accounts that exist exactly when every line with an amount is. */
  lemma {:induction false} NonZeroThere(accounts: seq<Account>, lines: seq<Line>)
    ensures OnAccounts(accounts, NonZero(lines))
            <==> forall i :: 0 <= i < |lines| && (lines[i].debit > 0 || lines[i].credit > 0) ==>
                   lines[i].account < |accounts|
  {
    if lines != [] {
      var before, l := lines[..|lines| - 1], lines[|lines| - 1];
      NonZeroThere(accounts, before);
      assert lines == before + [l];
      if l.debit > 0 || l.credit > 0 {
        var kept := NonZero(before);
        assert (kept + [l])[|kept|] == l;
        assert forall i :: 0 <= i < |kept| ==> (kept + [l])[i] == kept[i];
      } else {
        assert NonZero(before) + [] == NonZero(before);
      }
    }
  }

  lemma PayrollThere(accounts: seq<Account>, t: PayrollTotals, p: PayrollAccounts)
    requires NonNegative(t)
    ensures OnAccounts(accounts, BuildPayrollAccrualLines(t, p)) <==> PayrollAccountsThere(|accounts|, t, p)
  {
    var l := AllPayrollLines(t, p);
    NonZeroThere(accounts, l);
    assert l[0].account == p.salaryExpense && l[1].account == p.ssnitExpense && l[2].account == p.tier2Expense;
    assert l[3].account == p.payePayable && l[4].account == p.ssnitPayable && l[5].account == p.tier2Payable;
    assert l[6].account == p.otherPayable && l[7].account == p.salariesPayable;
    hide NonZero;
  }

  lemma DisposalThere(accounts: seq<Account>, cost: int, accumulated: int, proceeds: int, d: DisposalAccounts)
    requires cost > 0 && accumulated >= 0 && proceeds >= 0
    ensures OnAccounts(accounts, BuildAssetDisposalLines(cost, accumulated, proceeds, d))
            <==> DisposalAccountsThere(|accounts|, cost, accumulated, proceeds, d)
  {
    var l := AllDisposalLines(cost, accumulated, proceeds, d);
    NonZeroThere(accounts, l);
    hide NonZero, OnAccounts;
    assert l[0] == Line(d.accumulated, accumulated, 0) && l[1] == Line(d.fixedAsset, 0, cost);
    if proceeds > 0 {
      assert l[2] == Line(d.cash, proceeds, 0);
    }
    if proceeds != cost - accumulated {
      assert l[|l| - 1].account == (if proceeds > cost - accumulated then d.gain else d.loss);
    }
  }

  lemma FourThere(accounts: seq<Account>, f: nat, source: nat, destination: nat, t: nat, amount: int)
    ensures OnAccounts(accounts, InterBranchLines(f, source, destination, t, amount))
            <==> f < |accounts| && source < |accounts| && destination < |accounts| && t < |accounts|
  {
    var l := InterBranchLines(f, source, destination, t, amount);
    assert l[0].account == f && l[1].account == source && l[2].account == destination && l[3].account == t;
  }

  lemma BooksImpossible(h: Holdings, k: Kind, env: Env)
    requires Aligned(h.books) && WellStated(k, env) && !k.CASH_TRANSFER? && !k.CUSTOMER_MERGE?
    ensures ApplyToBooks(h.books, k, env).None? <==> Impossible(h, k, env)
  {
    var b := h.books;
    hide OnAccounts, PostNew, PostExisting, InOpenPeriod, FindPostablePeriod, IsBalanced;
    hide PayrollAccountsThere, DisposalAccountsThere, InterBranchLines, BuildPayrollAccrualLines,
         BuildAssetDisposalLines;
    match k {
      case INTER_BRANCH_TRANSFER(source, destination, amount) =>
        if env.fromSettlement.Some? && env.toSettlement.Some? {
          FourThere(b.accounts, env.fromSettlement.value, source, destination, env.toSettlement.value, amount);
        }
      case PAYROLL_RUN_APPROVAL(t) =>
        if env.payroll.Some? {
          PeriodOpenMeans(b.periods, PayrollDate(env));
          PayrollAccrualBalances(t, env.payroll.value);
          PayrollThere(b.accounts, t, env.payroll.value);
        }
      case ASSET_DISPOSAL(cost, proceeds) =>
        if env.disposal.Some? {
          PeriodOpenMeans(b.periods, env.now);
          DisposalBalances(cost, env.accumulated, proceeds, env.disposal.value);
          DisposalThere(b.accounts, cost, env.accumulated, proceeds, env.disposal.value);
        }
      case _ =>
    }
  }

  /** An approval fails exactly when something it needs is missing. */
  lemma ApplyFailsWhen(h: Holdings, k: Kind, env: Env)
    requires Aligned(h.books) && WellStated(k, env)
    ensures Apply(h, k, env).None? <==> Impossible(h, k, env)
  {
    if k.CASH_TRANSFER? || k.CUSTOMER_MERGE? {
      hide CustomerMerge.Execute, Transfer;
    } else {
      BooksImpossible(h, k, env);
      hide ApplyToBooks, Impossible;
    }
  }

  // ---- a resolution as a whole --------------------------------------------------

  /** A rejection changes nothing but its own waiting journal, which is a draft again. */
  ghost predicate RejectedEffect(h: Holdings, k: Kind, r: Holdings) {
    match k
    case JOURNAL_POSTING(j) =>
      && j < |h.books.journals|
      && r == h.(books := h.books.(journals := h.books.journals[j := h.books.journals[j].(status := DRAFT)]))
    case _ => r == h
  }

  /** The request is resolved by the user of the session, with one piece of evidence. */
  ghost predicate Recorded(s: State, x: Session, r: State) {
    && x.request < |s.requests|
    && r.requests == s.requests[x.request := s.requests[x.request].(
                       status := if x.decision == Approve then APPROVED else RequestStatus.REJECTED,
                       resolvedBy := Some(x.user))]
    && r.audit == s.audit + [Evidence(x.request, x.user, x.decision)]
    && r.admitted == s.admitted && r.sessions == s.sessions && r.readings == s.readings
  }

  /** Whether the transaction of a session can go through. */
  ghost predicate Resolvable(s: State, x: Session, env: Env) {
    && x.request < |s.requests| && s.requests[x.request].status == PENDING
    && var k := s.requests[x.request].kind;
       if x.decision == Approve then !Impossible(s.holdings, k, env)
       else k.JOURNAL_POSTING? ==> k.journal < |s.holdings.books.journals|
  }

  /**
    A resolution goes through exactly when it can, and then has its effect and its
    record together; otherwise it has none.
   */
  ghost predicate Resolution(s: State, x: Session, env: Env, r: State) {
    if !Resolvable(s, x, env) then r == s
    else
      && Recorded(s, x, r)
      && if x.decision == Approve then Approved(s.holdings, s.requests[x.request].kind, env, r.holdings)
         else RejectedEffect(s.holdings, s.requests[x.request].kind, r.holdings)
  }

  ghost predicate WellStatedRequest(s: State, x: Session, env: Env) {
    x.request < |s.requests| ==> WellStated(s.requests[x.request].kind, env)
  }

  lemma CommitMeans(s: State, i: nat, env: Env)
    requires Aligned(s.holdings.books) && i < |s.sessions| && WellStatedRequest(s, s.sessions[i], env)
    ensures Resolution(s, s.sessions[i], env, Commit(s, i, env))
  {
    hide Impossible, Approved, Apply;
    var x := s.sessions[i];
    if x.request < |s.requests| {
      ApplyMeans(s.holdings, s.requests[x.request].kind, env);
      ApplyFailsWhen(s.holdings, s.requests[x.request].kind, env);
      hide WellStated;
    }
  }

  // ---- what a request asks ----------------------------------------------------

  /** What the routes that file requests ask; the postings of journals have a route of their own. */
  ghost predicate Requestable(h: Holdings, k: Kind) {
    match k
    case CASH_TRANSFER(from, to, amount) =>
      && from != to && amount > 0 && from < |h.desk.holders| && to < |h.desk.holders|
      && h.desk.holders[from].balance >= amount
    case JOURNAL_POSTING(_) => false
    case FINANCIAL_PERIOD_REOPEN(p) => p < |h.books.periods| && h.books.periods[p].status == CLOSED
    case INTER_BRANCH_TRANSFER(_, _, amount) => amount > 0
    case CUSTOMER_MERGE(primary, merged) =>
      && primary != merged && primary < |h.crm.customers| && merged < |h.crm.customers|
      && !h.crm.customers[primary].mergeStatus.MERGED? && !h.crm.customers[merged].mergeStatus.MERGED?
    case _ => true
  }

  /** Checks and writes of direct changes and of requests, with nothing between what was asked and what is held. */
  lemma AdmitMeans(s: State, w: Work)
    ensures Admit(s, w)
         == if (match w case CHANGE(c) => Admissible(s.holdings, c) case REQUEST(k, _) => Requestable(s.holdings, k))
            then s.(admitted := s.admitted + [w]) else s
  {
    hide Admits, Admissible;
    if w.CHANGE? {
      AdmitsMeans(s.holdings, w.change);
    }
  }

  lemma WriteMeans(s: State, i: nat)
    requires Aligned(s.holdings.books) && i < |s.admitted|
    ensures match s.admitted[i]
            case CHANGE(c) => Changes(s.holdings, c, WriteOut(s, i).holdings)
              && WriteOut(s, i) == s.(holdings := WriteOut(s, i).holdings)
            case REQUEST(k, user) => WriteOut(s, i) == s.(requests := s.requests + [Request(k, user, PENDING, None)])
  {
    hide Changes, Perform;
    if s.admitted[i].CHANGE? {
      PerformMeans(s.holdings, s.admitted[i].change);
    }
  }
}
