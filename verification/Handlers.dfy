/**
  The handlers that change books and cash without a second user. Each one
  first checks, outside any transaction, and then writes; what it checked may
  have changed in between, so checks and writes are apart here.
 */
module Handlers {
  import opened Calendar
  import opened Money
  import opened GeneralLedger
  import opened AccountingEntries
  import opened LedgerBooks
  import opened CashDesk
  import CustomerMerge

  /** What handlers and approvals act on. */
  datatype Holdings = Holdings(books: Books, desk: Desk, crm: CustomerMerge.Crm)

  /**
    POST_CUSTOMER_ENTRY is the posting of a loan repayment, a savings deposit
    or withdrawal, or a field collection of either: they differ in accounts only.
   */
  datatype Change =
    | CREATE_ACCOUNT(category: Category)
    | SET_ACCOUNT_STATUS(account: nat, active: bool)
    | CREATE_PERIOD(startDate: Time, endDate: Time)
    | CLOSE_PERIOD(closed: nat)
    | LOCK_PERIOD(locked: nat)
    | CREATE_JOURNAL(postingDate: Time, lines: seq<Line>)
    | RUN_RECURRING_JOURNAL(dueDate: Time, template: seq<Line>)
    | POST_DEPRECIATION(date: Time, expense: nat, accumulated: nat, depreciation: int)
    | SETTLE_PAYROLL(date: Time, salariesPayable: nat, bank: nat, net: int)
    | POST_CUSTOMER_ENTRY(date: Time, debited: nat, credited: nat, amount: int)
    | DISBURSE(date: Time, receivable: nat, cash: nat, vault: nat, amount: int)
    | RECORD_VAULT_ENTRY(date: Time, vaultCash: nat, bank: nat, vault: nat, entryType: EntryType, amount: int)
    | REGISTER_HOLDER(holderKind: HolderKind)
    | SET_HOLDER_OPEN(holder: nat, open: bool)

  predicate Aligned(b: Books) { |b.applied| == |b.journals| }

  // ---- the checks -------------------------------------------------------

  predicate OpenVault(d: Desk, v: nat) {
    v < |d.holders| && d.holders[v].kind == VAULT && d.holders[v].open
  }

  /** The two sides of a bank entry: a receipt debits vault cash, a withdrawal credits it. */
  function VaultLines(vaultCash: nat, bank: nat, t: EntryType, amount: int): seq<Line> {
    if t == RECEIPT then TwoLines(vaultCash, bank, amount) else TwoLines(bank, vaultCash, amount)
  }

  predicate BothThere(b: Books, a: nat, c: nat) {
    a < |b.accounts| && c < |b.accounts|
  }

  /** What a handler asks before it writes. */
  predicate Admits(h: Holdings, c: Change) {
    match c
    case SET_ACCOUNT_STATUS(account, _) => account < |h.books.accounts|
    case CREATE_PERIOD(startDate, endDate) => MayCreatePeriod(h.books, startDate, endDate)
    case CLOSE_PERIOD(p) => p < |h.books.periods| && h.books.periods[p].status == OPEN
    case LOCK_PERIOD(p) => p < |h.books.periods| && h.books.periods[p].status == CLOSED
    case CREATE_JOURNAL(postingDate, lines) => GoodDraft(lines) && PeriodOpen(h.books, postingDate)
    case RUN_RECURRING_JOURNAL(dueDate, template) =>
      CanPost(h.books, dueDate, template) && AllActive(h.books.accounts, template)
    case POST_DEPRECIATION(date, expense, accumulated, depreciation) =>
      depreciation > 0 && BothThere(h.books, expense, accumulated) && PeriodOpen(h.books, date)
    case SETTLE_PAYROLL(date, salariesPayable, bank, _) =>
      BothThere(h.books, salariesPayable, bank) && PeriodOpen(h.books, date)
    case POST_CUSTOMER_ENTRY(date, debited, credited, amount) =>
      CanPost(h.books, date, TwoLines(debited, credited, amount))
    case DISBURSE(date, receivable, cash, vault, amount) =>
      OpenVault(h.desk, vault) && CanPost(h.books, date, TwoLines(receivable, cash, amount))
    case RECORD_VAULT_ENTRY(date, vaultCash, bank, vault, t, amount) =>
      t in {RECEIPT, WITHDRAWAL} && OpenVault(h.desk, vault)
        && CanPost(h.books, date, VaultLines(vaultCash, bank, t, amount))
    case SET_HOLDER_OPEN(holder, _) => holder < |h.desk.holders|
    case _ => true
  }

  /** The part of the checks that no other handler can undo. */
  predicate Sound(c: Change) {
    match c
    case RUN_RECURRING_JOURNAL(_, template) => Even(template)
    case DISBURSE(_, _, _, _, amount) => amount > 0
    case RECORD_VAULT_ENTRY(_, _, _, _, t, amount) => amount > 0 && t in {RECEIPT, WITHDRAWAL}
    case _ => true
  }

  // ---- the writes -------------------------------------------------------

  /** A vault movement and its journal in one transaction; the guard on the vault's balance is part of it. */
  function MoveAndPost(h: Holdings, date: Time, lines: seq<Line>, vault: nat, t: EntryType, amount: int): (r: Holdings)
    requires Aligned(h.books)
    ensures Aligned(r.books)
  {
    if OnAccounts(h.books.accounts, lines) && vault < |h.desk.holders|
       && (t == RECEIPT || Covers(h.desk, vault, amount))
    then h.(desk := Move(h.desk, vault, t, amount), books := PostNew(h.books, date, lines))
    else h
  }

  function PerformOnBooks(b: Books, c: Change): (r: Books)
    requires Aligned(b)
    ensures Aligned(r)
  {
    match c
    case CREATE_ACCOUNT(category) => CreateAccount(b, category)
    case SET_ACCOUNT_STATUS(account, active) => SetActive(b, account, active)
    case CREATE_PERIOD(startDate, endDate) => AddPeriod(b, startDate, endDate)
    case CLOSE_PERIOD(p) => if p < |b.periods| then SetPeriod(b, p, CLOSED) else b
    case LOCK_PERIOD(p) => if p < |b.periods| then SetPeriod(b, p, LOCKED) else b
    case CREATE_JOURNAL(postingDate, lines) => AddDraft(b, postingDate, lines)
    case RUN_RECURRING_JOURNAL(dueDate, template) => PostIfPresent(b, dueDate, template)
    case POST_DEPRECIATION(date, expense, accumulated, depreciation) =>
      PostIfPresent(b, date, TwoLines(expense, accumulated, depreciation))
    case SETTLE_PAYROLL(date, salariesPayable, bank, net) =>
      PostIfPresent(b, date, TwoLines(salariesPayable, bank, net))
    case POST_CUSTOMER_ENTRY(date, debited, credited, amount) =>
      PostIfPresent(b, date, TwoLines(debited, credited, amount))
    case _ => b
  }

  /** What a handler writes, whatever has become of what it checked. */
  function Perform(h: Holdings, c: Change): (r: Holdings)
    requires Aligned(h.books)
    ensures Aligned(r.books)
  {
    match c
    case DISBURSE(date, receivable, cash, vault, amount) =>
      MoveAndPost(h, date, TwoLines(receivable, cash, amount), vault, TRANSFER_OUT, amount)
    case RECORD_VAULT_ENTRY(date, vaultCash, bank, vault, t, amount) =>
      MoveAndPost(h, date, VaultLines(vaultCash, bank, t, amount), vault, t, amount)
    case REGISTER_HOLDER(kind) => h.(desk := Register(h.desk, kind))
    case SET_HOLDER_OPEN(holder, open) => h.(desk := SetOpen(h.desk, holder, open))
    case _ => h.(books := PerformOnBooks(h.books, c))
  }

  /** A handler nobody comes between. */
  function Direct(h: Holdings, c: Change): (r: Holdings)
    requires Aligned(h.books)
    ensures Aligned(r.books)
  {
    if Admits(h, c) then Perform(h, c) else h
  }

  // ---- holdings stay in order ---------------------------------------------

  ghost predicate HoldingsInv(h: Holdings) {
    BooksInv(h.books) && DeskInv(h.desk)
  }

  lemma PositiveWhenBalanced(debited: nat, credited: nat, amount: int)
    ensures IsBalanced(TwoLines(debited, credited, amount)) <==> amount > 0
    ensures Even(TwoLines(debited, credited, amount))
  {
    TwoLinesSums(debited, credited, amount);
  }

  /** What was admitted stays sound, however late it is performed. */
  lemma AdmittedIsSound(h: Holdings, c: Change)
    requires Admits(h, c)
    ensures Sound(c)
  {
    hide TwoLines, SumDebit, SumCredit, OpenVault, OnAccounts, PeriodOpen;
    match c {
      case DISBURSE(_, receivable, cash, _, amount) => PositiveWhenBalanced(receivable, cash, amount);
      case RECORD_VAULT_ENTRY(_, vaultCash, bank, _, _, amount) =>
        PositiveWhenBalanced(vaultCash, bank, amount);
        PositiveWhenBalanced(bank, vaultCash, amount);
      case _ =>
    }
  }

  lemma PerformOnBooksKeeps(b: Books, c: Change)
    requires BooksInv(b) && Sound(c)
    ensures BooksInv(PerformOnBooks(b, c))
    ensures PostedOnce(b) ==> PostedOnce(PerformOnBooks(b, c))
  {
    assert Aligned(b);
    hide BooksInv, PostedOnce, PostIfPresent, AddDraft, CreateAccount, SetActive, TwoLines, Even;
    match c {
      case CREATE_ACCOUNT(category) => CreateAccountKeeps(b, category);
      case SET_ACCOUNT_STATUS(account, active) => SetActiveKeeps(b, account, active);
      case CREATE_PERIOD(startDate, endDate) => PeriodsKeep(b, AddPeriod(b, startDate, endDate));
      case CLOSE_PERIOD(p) => PeriodsKeep(b, PerformOnBooks(b, c));
      case LOCK_PERIOD(p) => PeriodsKeep(b, PerformOnBooks(b, c));
      case CREATE_JOURNAL(postingDate, lines) => AddDraftKeeps(b, postingDate, lines);
      case RUN_RECURRING_JOURNAL(dueDate, template) => PostIfPresentKeeps(b, dueDate, template);
      case POST_DEPRECIATION(date, expense, accumulated, depreciation) =>
        PositiveWhenBalanced(expense, accumulated, depreciation);
        PostIfPresentKeeps(b, date, TwoLines(expense, accumulated, depreciation));
      case SETTLE_PAYROLL(date, salariesPayable, bank, net) =>
        PositiveWhenBalanced(salariesPayable, bank, net);
        PostIfPresentKeeps(b, date, TwoLines(salariesPayable, bank, net));
      case POST_CUSTOMER_ENTRY(date, debited, credited, amount) =>
        PositiveWhenBalanced(debited, credited, amount);
        PostIfPresentKeeps(b, date, TwoLines(debited, credited, amount));
      case _ =>
    }
  }

  lemma MoveAndPostKeeps(h: Holdings, date: Time, lines: seq<Line>, vault: nat, t: EntryType, amount: int)
    requires HoldingsInv(h) && Even(lines) && amount > 0 && t in {RECEIPT, WITHDRAWAL, TRANSFER_OUT}
    ensures Aligned(h.books)
    ensures HoldingsInv(MoveAndPost(h, date, lines, vault, t, amount))
    ensures PostedOnce(h.books) ==> PostedOnce(MoveAndPost(h, date, lines, vault, t, amount).books)
  {
    assert Aligned(h.books);
    hide BooksInv, DeskInv, PostedOnce, PostNew, Move, Covers, Even;
    if OnAccounts(h.books.accounts, lines) && vault < |h.desk.holders|
       && (t == RECEIPT || Covers(h.desk, vault, amount)) {
      PostNewKeeps(h.books, date, lines);
      MoveKeeps(h.desk, vault, t, amount);
    }
  }

  /** Every write of a sound change keeps books and cash in order, on checks however stale. */
  lemma PerformKeeps(h: Holdings, c: Change)
    requires HoldingsInv(h) && Sound(c)
    ensures Aligned(h.books)
    ensures HoldingsInv(Perform(h, c))
    ensures PostedOnce(h.books) ==> PostedOnce(Perform(h, c).books)
  {
    assert Aligned(h.books);
    hide BooksInv, DeskInv, PostedOnce, MoveAndPost, Register, SetOpen, PerformOnBooks, TwoLines, Even;
    match c {
      case DISBURSE(date, receivable, cash, vault, amount) =>
        PositiveWhenBalanced(receivable, cash, amount);
        MoveAndPostKeeps(h, date, TwoLines(receivable, cash, amount), vault, TRANSFER_OUT, amount);
      case RECORD_VAULT_ENTRY(date, vaultCash, bank, vault, t, amount) =>
        PositiveWhenBalanced(vaultCash, bank, amount);
        PositiveWhenBalanced(bank, vaultCash, amount);
        MoveAndPostKeeps(h, date, VaultLines(vaultCash, bank, t, amount), vault, t, amount);
      case REGISTER_HOLDER(kind) => RegisterKeeps(h.desk, kind);
      case SET_HOLDER_OPEN(holder, open) => SetOpenKeeps(h.desk, holder, open);
      case _ => PerformOnBooksKeeps(h.books, c);
    }
  }

  lemma DirectKeeps(h: Holdings, c: Change)
    requires HoldingsInv(h)
    ensures Aligned(h.books)
    ensures HoldingsInv(Direct(h, c))
    ensures PostedOnce(h.books) ==> PostedOnce(Direct(h, c).books)
  {
    assert Aligned(h.books);
    hide HoldingsInv, Perform, PostedOnce, Admits;
    if Admits(h, c) {
      AdmittedIsSound(h, c);
      PerformKeeps(h, c);
    }
  }

  lemma PerformExtendsJournals(h: Holdings, c: Change)
    requires Aligned(h.books)
    ensures h.books.journals <= Perform(h, c).books.journals
  {
    hide OnAccounts, ApplyLines, Move, Covers, TwoLines;
  }

  // ---- cash ---------------------------------------------------------------

  /** What a write brings in from, or pays out to, the world outside vaults and tellers. */
  function Flow(h: Holdings, c: Change): int
    requires Aligned(h.books)
  {
    match c
    case DISBURSE(_, _, _, _, amount) => if Perform(h, c) == h then 0 else -amount
    case RECORD_VAULT_ENTRY(_, _, _, _, t, amount) =>
      if Perform(h, c) == h then 0 else Delta(CashEntry(0, t, amount, 0))
    case _ => 0
  }

  lemma {:induction false} SameBalancesSameTotal(a: seq<Holder>, b: seq<Holder>)
    requires |a| == |b| && forall i :: 0 <= i < |a| ==> a[i].balance == b[i].balance
    ensures TotalCash(a) == TotalCash(b)
  {
    if a != [] {
      SameBalancesSameTotal(a[1..], b[1..]);
    }
  }

  lemma {:induction false} TotalCashSnoc(a: seq<Holder>, x: Holder)
    ensures TotalCash(a + [x]) == TotalCash(a) + x.balance
  {
    if a == [] {
      assert (a + [x])[1..] == [];
    } else {
      assert (a + [x])[1..] == a[1..] + [x];
      TotalCashSnoc(a[1..], x);
    }
  }

  lemma PerformTotal(h: Holdings, c: Change)
    requires Aligned(h.books)
    ensures TotalCash(Perform(h, c).desk.holders) == TotalCash(h.desk.holders) + Flow(h, c)
  {
    hide TotalCash, PerformOnBooks, PostNew, OnAccounts, TwoLines;
    match c {
      case DISBURSE(date, receivable, cash, vault, amount) =>
        if vault < |h.desk.holders| { MoveTotal(h.desk, vault, TRANSFER_OUT, amount); }
      case RECORD_VAULT_ENTRY(date, vaultCash, bank, vault, t, amount) =>
        if vault < |h.desk.holders| { MoveTotal(h.desk, vault, t, amount); }
      case REGISTER_HOLDER(kind) => TotalCashSnoc(h.desk.holders, Holder(kind, 0, 0, false));
      case SET_HOLDER_OPEN(holder, open) =>
        SameBalancesSameTotal(h.desk.holders, SetOpen(h.desk, holder, open).holders);
      case _ =>
    }
  }
}
