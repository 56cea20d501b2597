/**
  What the postings mean: which account each one debits or credits, by how much,
  and that cash and ledger move together.
 */
module Postings {
  import opened Money
  import opened Calendar
  import opened GeneralLedger
  import opened LedgerReports
  import opened AccountingEntries
  import opened LedgerBooks
  import opened CashDesk
  import opened Handlers
  import opened Approvals

  // ---- lines on different accounts ------------------------------------------

  ghost predicate DifferentAccounts(lines: seq<Line>) {
    forall i, j :: 0 <= i < j < |lines| ==> lines[i].account != lines[j].account
  }

  lemma {:induction false} NotMentioned(lines: seq<Line>, a: nat)
    requires forall i :: 0 <= i < |lines| ==> lines[i].account != a
    ensures NetDebit(lines, a) == 0
  {
    if lines != [] {
      NotMentioned(lines[..|lines| - 1], a);
    }
  }

  /** Each account receives its own line and nothing else. */
  lemma {:induction false} OneLineEach(lines: seq<Line>, i: nat)
    requires DifferentAccounts(lines) && i < |lines|
    ensures NetDebit(lines, lines[i].account) == lines[i].debit - lines[i].credit
  {
    var n := |lines| - 1;
    if i == n {
      NotMentioned(lines[..n], lines[n].account);
    } else {
      OneLineEach(lines[..n], i);
    }
  }

  /** Leaving out the empty lines changes nothing. */
  lemma {:induction false} NonZeroNet(lines: seq<Line>, a: nat)
    requires forall i :: 0 <= i < |lines| ==> lines[i].debit >= 0 && lines[i].credit >= 0
    ensures NetDebit(NonZero(lines), a) == NetDebit(lines, a)
  {
    if lines != [] {
      var before, l := lines[..|lines| - 1], lines[|lines| - 1];
      NonZeroNet(before, a);
      if l.debit > 0 || l.credit > 0 {
        TotalSnoc(NetOn(a), NonZero(before), l);
      } else {
        assert NonZero(before) + [] == NonZero(before);
      }
    }
  }

  // ---- the four builders ----------------------------------------------------

  lemma TwoLinesMean(debited: nat, credited: nat, amount: int)
    requires debited != credited
    ensures NetDebit(TwoLines(debited, credited, amount), debited) == amount
    ensures NetDebit(TwoLines(debited, credited, amount), credited) == -amount
  {
    hide Total;
    OneLineEach(TwoLines(debited, credited, amount), 0);
    OneLineEach(TwoLines(debited, credited, amount), 1);
  }

  /** The accrual charges gross pay and employer contributions, and owes every recipient what is due. */
  lemma PayrollAccrualMeans(t: PayrollTotals, a: PayrollAccounts)
    requires t.gross >= 0 && t.paye >= 0 && t.ssnitEmployee >= 0 && t.ssnitEmployer >= 0 && t.tier2Employer >= 0
             && t.otherDeductions >= 0 && t.net >= 0
    requires DifferentAccounts(AllPayrollLines(t, a))
    ensures var lines := BuildPayrollAccrualLines(t, a);
            && NetDebit(lines, a.salaryExpense) == t.gross
            && NetDebit(lines, a.ssnitExpense) == t.ssnitEmployer
            && NetDebit(lines, a.tier2Expense) == t.tier2Employer
            && NetDebit(lines, a.payePayable) == -t.paye
            && NetDebit(lines, a.ssnitPayable) == -(t.ssnitEmployee + t.ssnitEmployer)
            && NetDebit(lines, a.tier2Payable) == -t.tier2Employer
            && NetDebit(lines, a.otherPayable) == -t.otherDeductions
            && NetDebit(lines, a.salariesPayable) == -t.net
  {
    var all := AllPayrollLines(t, a);
    hide Total, NonZero, NetDebit;
    forall i: nat | i < 8
      ensures NetDebit(NonZero(all), all[i].account) == all[i].debit - all[i].credit
    {
      OneLineEach(all, i);
      NonZeroNet(all, all[i].account);
    }
    assert all[0].account == a.salaryExpense && all[1].account == a.ssnitExpense && all[2].account == a.tier2Expense;
    assert all[3].account == a.payePayable && all[4].account == a.ssnitPayable && all[5].account == a.tier2Payable;
    assert all[6].account == a.otherPayable && all[7].account == a.salariesPayable;
  }

  predicate DifferentDisposalAccounts(a: DisposalAccounts) {
    && a.accumulated != a.fixedAsset && a.accumulated != a.cash && a.accumulated != a.gain && a.accumulated != a.loss
    && a.fixedAsset != a.cash && a.fixedAsset != a.gain && a.fixedAsset != a.loss && a.cash != a.gain
    && a.cash != a.loss && a.gain != a.loss
  }

  /**
    A disposal removes cost and accumulated depreciation, takes in the proceeds, and
    books exactly one of gain and loss.
   */
  lemma DisposalMeans(cost: int, accumulated: int, proceeds: int, a: DisposalAccounts)
    requires cost >= 0 && accumulated >= 0 && proceeds >= 0 && DifferentDisposalAccounts(a)
    ensures var lines := BuildAssetDisposalLines(cost, accumulated, proceeds, a);
            && NetDebit(lines, a.accumulated) == accumulated
            && NetDebit(lines, a.fixedAsset) == -cost
            && NetDebit(lines, a.cash) == proceeds
            && NetDebit(lines, a.gain) == -Max(0, proceeds - (cost - accumulated))
            && NetDebit(lines, a.loss) == Max(0, cost - accumulated - proceeds)
  {
    var all := AllDisposalLines(cost, accumulated, proceeds, a);
    forall x: nat
      ensures NetDebit(NonZero(all), x) == NetDebit(all, x)
    {
      NonZeroNet(all, x);
    }
    DisposalNet(cost, accumulated, proceeds, a, a.accumulated);
    DisposalNet(cost, accumulated, proceeds, a, a.fixedAsset);
    DisposalNet(cost, accumulated, proceeds, a, a.cash);
    DisposalNet(cost, accumulated, proceeds, a, a.gain);
    DisposalNet(cost, accumulated, proceeds, a, a.loss);
  }

  /** The disposal's lines seen from one account. */
  lemma DisposalNet(cost: int, accumulated: int, proceeds: int, a: DisposalAccounts, x: nat)
    requires proceeds >= 0
    ensures NetDebit(AllDisposalLines(cost, accumulated, proceeds, a), x)
         == (if x == a.accumulated then accumulated else 0) - (if x == a.fixedAsset then cost else 0)
            + (if x == a.cash then proceeds else 0)
            - (if x == a.gain then Max(0, proceeds - (cost - accumulated)) else 0)
            + (if x == a.loss then Max(0, cost - accumulated - proceeds) else 0)
  {
    hide Total;
    var gainLoss := proceeds - (cost - accumulated);
    var base := [Line(a.accumulated, accumulated, 0), Line(a.fixedAsset, 0, cost)];
    var cash := if proceeds > 0 then [Line(a.cash, proceeds, 0)] else [];
    var rest :=
      if gainLoss > 0 then [Line(a.gain, 0, gainLoss)]
      else if gainLoss < 0 then [Line(a.loss, -gainLoss, 0)]
      else [];
    DisposalSums(NetOn(x), base, cash, rest);
  }

  /**
    The source branch's account pays, the destination's receives, and the two
    settlement accounts owe each other the amount.
   */
  lemma InterBranchMeans(fromSettlement: nat, fromAccount: nat, toAccount: nat, toSettlement: nat, amount: int)
    requires DifferentAccounts(InterBranchLines(fromSettlement, fromAccount, toAccount, toSettlement, amount))
    ensures var lines := InterBranchLines(fromSettlement, fromAccount, toAccount, toSettlement, amount);
            && NetDebit(lines, fromAccount) == -amount && NetDebit(lines, fromSettlement) == amount
            && NetDebit(lines, toAccount) == amount && NetDebit(lines, toSettlement) == -amount
            && (IsBalanced(lines) <==> amount > 0)
  {
    var lines := InterBranchLines(fromSettlement, fromAccount, toAccount, toSettlement, amount);
    OneLineEach(lines, 0);
    OneLineEach(lines, 1);
    OneLineEach(lines, 2);
    OneLineEach(lines, 3);
    FourLines(DebitOf(), lines);
    FourLines(CreditOf(), lines);
  }

  lemma FourLines(f: Line -> int, l: seq<Line>)
    requires |l| == 4
    ensures Total(f, l) == f(l[0]) + f(l[1]) + f(l[2]) + f(l[3])
  {
    Snoc(f, l);
    Snoc(f, l[..3]);
    Snoc(f, l[..2]);
    Snoc(f, l[..1]);
    assert l[..3][..2] == l[..2] && l[..2][..1] == l[..1];
  }

  // ---- what reaches the balances --------------------------------------------

  /** A posting changes each stored balance by what lands on the account, seen from its normal side. */
  lemma PostingMoves(b: Books, date: Time, lines: seq<Line>, a: nat)
    requires OnAccounts(b.accounts, lines) && a < |b.accounts|
    ensures PostNew(b, date, lines).accounts[a]
         == b.accounts[a].(balance := b.accounts[a].balance + Signed(b.accounts[a].category, NetDebit(lines, a)))
  {
    ApplyLinesAdds(b.accounts, lines, a);
    AccountSumIsNetDebit(ChartOf(b.accounts), lines, a);
  }

  /** An account's change over a step. */
  function Moved(before: Books, after: Books, a: nat): int
    requires a < |before.accounts| && a < |after.accounts|
  {
    after.accounts[a].balance - before.accounts[a].balance
  }

  predicate Asset(b: Books, a: nat) {
    a < |b.accounts| && b.accounts[a].category == ASSET
  }

  /**
    A bank entry that is written moves the vault, the vault cash account and
    the bank account by the same amount, on checks however stale.
   */
  lemma VaultAndLedgerMoveTogether(h: Holdings, date: Time, vaultCash: nat, bank: nat, vault: nat, t: EntryType,
      amount: int)
    requires Aligned(h.books) && Asset(h.books, vaultCash) && Asset(h.books, bank) && vaultCash != bank
    requires Sound(RECORD_VAULT_ENTRY(date, vaultCash, bank, vault, t, amount))
    requires Perform(h, RECORD_VAULT_ENTRY(date, vaultCash, bank, vault, t, amount)) != h
    ensures var r := Perform(h, RECORD_VAULT_ENTRY(date, vaultCash, bank, vault, t, amount));
            && vault < |h.desk.holders| == |r.desk.holders| && |r.books.accounts| == |h.books.accounts|
            && r.desk.holders[vault].balance - h.desk.holders[vault].balance
               == (if t == RECEIPT then amount else -amount)
            && Moved(h.books, r.books, vaultCash) == r.desk.holders[vault].balance - h.desk.holders[vault].balance
            && Moved(h.books, r.books, bank) == -Moved(h.books, r.books, vaultCash)
  {
    hide NetDebit, PostNew, ApplyLines, TwoLines;
    var lines := VaultLines(vaultCash, bank, t, amount);
    TwoLinesMean(vaultCash, bank, amount);
    TwoLinesMean(bank, vaultCash, amount);
    SameAccounts(h.books, date, lines);
    PostingMoves(h.books, date, lines, vaultCash);
    PostingMoves(h.books, date, lines, bank);
  }

  lemma SameAccounts(b: Books, date: Time, lines: seq<Line>)
    requires OnAccounts(b.accounts, lines)
    ensures |PostNew(b, date, lines).accounts| == |b.accounts|
  {
  }

  /**
    A disbursement that is written takes the principal out of the vault and the cash
    account and puts it into the receivable.
   */
  lemma DisbursementMovesBoth(h: Holdings, date: Time, receivable: nat, cash: nat, vault: nat, principal: int)
    requires Aligned(h.books) && Asset(h.books, receivable) && Asset(h.books, cash) && receivable != cash
    requires Perform(h, DISBURSE(date, receivable, cash, vault, principal)) != h
    ensures var r := Perform(h, DISBURSE(date, receivable, cash, vault, principal));
            && vault < |h.desk.holders| == |r.desk.holders| && |r.books.accounts| == |h.books.accounts|
            && r.desk.holders[vault].balance == h.desk.holders[vault].balance - principal >= 0
            && Moved(h.books, r.books, cash) == -principal && Moved(h.books, r.books, receivable) == principal
  {
    hide NetDebit, PostNew, ApplyLines, TwoLines;
    var lines := TwoLines(receivable, cash, principal);
    TwoLinesMean(receivable, cash, principal);
    SameAccounts(h.books, date, lines);
    PostingMoves(h.books, date, lines, receivable);
    PostingMoves(h.books, date, lines, cash);
  }

  /** A rejection moves no money: it only sends its own journal, if it has one, back to DRAFT. */
  lemma RejectionMovesNothing(s: State, i: nat, env: Env)
    requires Aligned(s.holdings.books) && i < |s.sessions| && s.sessions[i].decision == Reject
    ensures var b, c := s.holdings.books, Commit(s, i, env).holdings.books;
            && c.accounts == b.accounts && c.applied == b.applied && c.periods == b.periods
            && Commit(s, i, env).holdings.desk == s.holdings.desk && Commit(s, i, env).holdings.crm == s.holdings.crm
            && |c.journals| == |b.journals|
            && forall j :: 0 <= j < |b.journals| && c.journals[j] != b.journals[j] ==>
                 && s.sessions[i].request < |s.requests| && Awaits(s.requests[s.sessions[i].request], j)
                 && c.journals[j] == b.journals[j].(status := DRAFT)
  {
  }

  /** A transfer that is covered moves the amount from one holder to the other, and records both sides. */
  lemma TransferMeans(d: Desk, from: nat, to: nat, amount: int)
    requires from < |d.holders| && to < |d.holders| && from != to
    ensures var r := Transfer(d, from, to, amount);
            if d.holders[from].balance < amount then r == d
            else
              && r.holders[from].balance == d.holders[from].balance - amount
              && r.holders[to].balance == d.holders[to].balance + amount
              && (forall h :: 0 <= h < |d.holders| && h != from && h != to ==> r.holders[h] == d.holders[h])
              && d.entries <= r.entries && |r.entries| == |d.entries| + 2
              && (forall h :: 0 <= h < |d.holders| ==>
                    SignedSum(r.entries, h)
                      == SignedSum(d.entries, h) + (if h == to then amount else if h == from then -amount else 0))
  {
    if d.holders[from].balance >= amount {
      TransferIsTwoMoves(d, from, to, amount);
      var mid := Move(d, from, TRANSFER_OUT, amount);
      forall h | 0 <= h < |d.holders|
        ensures SignedSum(Move(mid, to, TRANSFER_IN, amount).entries, h)
             == SignedSum(d.entries, h) + (if h == to then amount else if h == from then -amount else 0)
      {
        SignedSumSnoc(d.entries, mid.entries[|d.entries|], h);
        SignedSumSnoc(mid.entries, Move(mid, to, TRANSFER_IN, amount).entries[|mid.entries|], h);
      }
    }
  }
}
