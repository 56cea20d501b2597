/**
  The books: accounts with their stored balances, journals, and financial
  periods, and every operation that changes them. For each journal the books
  also count how often its lines have been added to the stored balances.
 */
module LedgerBooks {
  import opened Wrappers
  import opened Money
  import opened Calendar
  import opened GeneralLedger
  import opened AccountingEntries

  datatype Account = Account(category: Category, active: bool, balance: int)

  datatype PeriodStatus = OPEN | CLOSED | LOCKED

  datatype Period = Period(startDate: Time, endDate: Time, status: PeriodStatus)

  datatype Books = Books(accounts: seq<Account>, journals: seq<Journal>, applied: seq<nat>, periods: seq<Period>)

  // ---- accounts and lines -----------------------------------------------

  function ChartOf(accounts: seq<Account>): (c: Chart)
    ensures |c| == |accounts|
    ensures forall i :: 0 <= i < |c| ==> c[i] == accounts[i].category
  {
    if accounts == [] then [] else [accounts[0].category] + ChartOf(accounts[1..])
  }

  predicate OnAccounts(accounts: seq<Account>, lines: seq<Line>) {
    forall i :: 0 <= i < |lines| ==> lines[i].account < |accounts|
  }

  predicate AllActive(accounts: seq<Account>, lines: seq<Line>)
    requires OnAccounts(accounts, lines)
  {
    forall i :: 0 <= i < |lines| ==> accounts[lines[i].account].active
  }

  /** balance: { increment: effect } for one line */
  function ApplyLine(accounts: seq<Account>, l: Line): seq<Account>
    requires l.account < |accounts|
  {
    var a := accounts[l.account];
    accounts[l.account := a.(balance := a.balance + BalanceEffect(a.category, l.debit, l.credit))]
  }

  function ApplyLines(accounts: seq<Account>, lines: seq<Line>): (r: seq<Account>)
    requires OnAccounts(accounts, lines)
    ensures |r| == |accounts|
  {
    if lines == [] then accounts else ApplyLine(ApplyLines(accounts, lines[..|lines| - 1]), lines[|lines| - 1])
  }

  /** Increments line by line change only balances, and each by the sum of its account's effects. */
  lemma {:induction false} ApplyLinesAdds(accounts: seq<Account>, lines: seq<Line>, i: nat)
    requires OnAccounts(accounts, lines) && i < |accounts|
    ensures ApplyLines(accounts, lines)[i]
            == accounts[i].(balance := accounts[i].balance + AccountSum(ChartOf(accounts), lines, i))
  {
    if lines != [] {
      ApplyLinesAdds(accounts, lines[..|lines| - 1], i);
      ApplyLinesAdds(accounts, lines[..|lines| - 1], lines[|lines| - 1].account);
    }
  }

  lemma ApplyLinesChart(accounts: seq<Account>, lines: seq<Line>)
    requires OnAccounts(accounts, lines)
    ensures ChartOf(ApplyLines(accounts, lines)) == ChartOf(accounts)
  {
    forall i | 0 <= i < |accounts|
      ensures ChartOf(ApplyLines(accounts, lines))[i] == ChartOf(accounts)[i]
    {
      ApplyLinesAdds(accounts, lines, i);
    }
  }

  // ---- periods ----------------------------------------------------------

  function FindPostablePeriod(periods: seq<Period>, date: Time): Option<Period> {
    if periods == [] then None
    else if periods[0].startDate <= date <= periods[0].endDate then Some(periods[0])
    else FindPostablePeriod(periods[1..], date)
  }

  predicate PeriodOpen(b: Books, date: Time) {
    var p := FindPostablePeriod(b.periods, date);
    p.Some? && p.value.status == OPEN
  }

  /** The overlap that creating a period looks for. */
  predicate Overlap(p: Period, startDate: Time, endDate: Time) {
    p.startDate <= endDate && p.endDate >= startDate
  }

  predicate MayCreatePeriod(b: Books, startDate: Time, endDate: Time) {
    forall i :: 0 <= i < |b.periods| ==> !Overlap(b.periods[i], startDate, endDate)
  }

  function AddPeriod(b: Books, startDate: Time, endDate: Time): Books {
    b.(periods := b.periods + [Period(startDate, endDate, OPEN)])
  }

  function SetPeriod(b: Books, p: nat, status: PeriodStatus): Books
    requires p < |b.periods|
  {
    b.(periods := b.periods[p := b.periods[p].(status := status)])
  }

  // ---- accounts ---------------------------------------------------------

  function CreateAccount(b: Books, c: Category): Books {
    b.(accounts := b.accounts + [Account(c, true, 0)])
  }

  function SetActive(b: Books, a: nat, active: bool): Books {
    if a < |b.accounts| then b.(accounts := b.accounts[a := b.accounts[a].(active := active)]) else b
  }

  // ---- journals ---------------------------------------------------------

  predicate GoodDraft(lines: seq<Line>) {
    && |lines| >= 2
    && (forall i :: 0 <= i < |lines| ==>
          && lines[i].debit >= 0 && lines[i].credit >= 0
          && !(lines[i].debit > 0 && lines[i].credit > 0)
          && !(lines[i].debit == 0 && lines[i].credit == 0))
    && IsBalanced(lines)
  }

  /** The draft is stored if its lines name accounts that exist. */
  function AddDraft(b: Books, date: Time, lines: seq<Line>): Books {
    if OnAccounts(b.accounts, lines)
    then b.(journals := b.journals + [Journal(date, DRAFT, lines)], applied := b.applied + [0])
    else b
  }

  function SetJournal(b: Books, j: nat, status: JournalStatus): Books
    requires j < |b.journals|
  {
    b.(journals := b.journals[j := b.journals[j].(status := status)])
  }

  /** A journal created as POSTED, its lines added to the balances in the same transaction. */
  function PostNew(b: Books, date: Time, lines: seq<Line>): Books
    requires OnAccounts(b.accounts, lines)
  {
    Books(ApplyLines(b.accounts, lines), b.journals + [Journal(date, POSTED, lines)], b.applied + [1], b.periods)
  }

  /** The JOURNAL_POSTING case: re-check, then add to the balances or reject. The status itself is not looked at. */
  function PostExisting(b: Books, j: nat): Books
    requires j < |b.journals| == |b.applied|
  {
    var lines := b.journals[j].lines;
    if !(IsBalanced(lines) && OnAccounts(b.accounts, lines) && AllActive(b.accounts, lines)
       && PeriodOpen(b, b.journals[j].postingDate))
    then SetJournal(b, j, REJECTED)
    else
      SetJournal(b, j, POSTED).(accounts := ApplyLines(b.accounts, lines), applied := b.applied[j := b.applied[j] + 1])
  }

  /**
    The automatic two-sided postings of vault and loan movements: both accounts, an
    open period, a balanced journal.
   */
  predicate CanPost(b: Books, date: Time, lines: seq<Line>) {
    OnAccounts(b.accounts, lines) && PeriodOpen(b, date) && IsBalanced(lines)
  }

  /** The write of an automatic posting: it fails only on an account that is not there. */
  function PostIfPresent(b: Books, date: Time, lines: seq<Line>): Books {
    if OnAccounts(b.accounts, lines) then PostNew(b, date, lines) else b
  }

  // ---- stored balances against replayed history ---------------------------

  /** What the balances must hold: each journal's effect, as often as it was applied. */
  function AppliedSum(chart: Chart, journals: seq<Journal>, applied: seq<nat>, a: nat): int
    requires |applied| == |journals|
  {
    if journals == [] then 0
    else
      var n := |journals| - 1;
      AppliedSum(chart, journals[..n], applied[..n], a) + Times(applied[n], AccountSum(chart, journals[n].lines, a))
  }

  function Times(n: nat, x: int): int {
    if n == 0 then 0 else Times(n - 1, x) + x
  }

  ghost predicate BooksInv(b: Books) {
    && |b.applied| == |b.journals|
    && PostedOnChart(ChartOf(b.accounts), b.journals)
    && PostedBalanced(b.journals)
    && forall a :: 0 <= a < |b.accounts| ==>
         b.accounts[a].balance == AppliedSum(ChartOf(b.accounts), b.journals, b.applied, a)
  }

  /** Each journal has been added to the balances once if it is POSTED and never otherwise. */
  ghost predicate PostedOnce(b: Books) {
    && |b.applied| == |b.journals|
    && forall j :: 0 <= j < |b.journals| ==> b.applied[j] == if b.journals[j].status == POSTED then 1 else 0
  }

  /** The index equals the replay: what is stored for an account is what its posted lines add up to. */
  ghost predicate StoredIsReplayed(b: Books) {
    var lines := AllPosted(b.journals);
    && OnChart(ChartOf(b.accounts), lines)
    && forall a :: 0 <= a < |b.accounts| ==> b.accounts[a].balance == Get(Aggregate(ChartOf(b.accounts), lines), a)
  }

  /**
    How far the stored balance of an account is from the replay: the journals
    applied other than once if posted, never if not.
   */
  function Drift(chart: Chart, journals: seq<Journal>, applied: seq<nat>, a: nat): int
    requires |applied| == |journals|
  {
    if journals == [] then 0
    else
      var n := |journals| - 1;
      var x := AccountSum(chart, journals[n].lines, a);
      Drift(chart, journals[..n], applied[..n], a)
      + Times(applied[n], x) - (if journals[n].status == POSTED then x else 0)
  }

  lemma {:induction false} AllPostedOnChart(chart: Chart, journals: seq<Journal>)
    requires PostedOnChart(chart, journals)
    ensures OnChart(chart, AllPosted(journals))
  {
    if journals != [] {
      AllPostedOnChart(chart, journals[..|journals| - 1]);
    }
  }

  lemma {:induction false} AppliedIsPostedPlusDrift(chart: Chart, journals: seq<Journal>, applied: seq<nat>, a: nat)
    requires |applied| == |journals|
    ensures AppliedSum(chart, journals, applied, a)
            == AccountSum(chart, AllPosted(journals), a) + Drift(chart, journals, applied, a)
  {
    if journals != [] {
      var n := |journals| - 1;
      AppliedIsPostedPlusDrift(chart, journals[..n], applied[..n], a);
      TotalConcat(EffectOn(chart, a), AllPosted(journals[..n]),
        if journals[n].status == POSTED then journals[n].lines else []);
    }
  }

  /** In any books that satisfy the invariant, the stored balance is the replayed one plus the drift. */
  lemma StoredIsReplayedPlusDrift(b: Books, a: nat)
    requires BooksInv(b) && a < |b.accounts|
    ensures OnChart(ChartOf(b.accounts), AllPosted(b.journals))
    ensures b.accounts[a].balance
         == Get(Aggregate(ChartOf(b.accounts), AllPosted(b.journals)), a)
           + Drift(ChartOf(b.accounts), b.journals, b.applied, a)
  {
    var chart := ChartOf(b.accounts);
    AllPostedOnChart(chart, b.journals);
    AppliedIsPostedPlusDrift(chart, b.journals, b.applied, a);
    AggregateIsAccountSum(chart, AllPosted(b.journals), a);
  }

  lemma {:induction false} NoDrift(chart: Chart, journals: seq<Journal>, applied: seq<nat>, a: nat)
    requires |applied| == |journals|
    requires forall j :: 0 <= j < |journals| ==> applied[j] == if journals[j].status == POSTED then 1 else 0
    ensures Drift(chart, journals, applied, a) == 0
  {
    if journals != [] {
      NoDrift(chart, journals[..|journals| - 1], applied[..|journals| - 1], a);
      var x := AccountSum(chart, journals[|journals| - 1].lines, a);
      assert Times(1, x) == Times(0, x) + x;
    }
  }

  /** When every journal was applied exactly as its status says, stored balances equal replayed history. */
  lemma PostedOnceMeansReplayed(b: Books)
    requires BooksInv(b) && PostedOnce(b)
    ensures StoredIsReplayed(b)
  {
    AllPostedOnChart(ChartOf(b.accounts), b.journals);
    forall a | 0 <= a < |b.accounts|
      ensures b.accounts[a].balance == Get(Aggregate(ChartOf(b.accounts), AllPosted(b.journals)), a)
    {
      StoredIsReplayedPlusDrift(b, a);
      NoDrift(ChartOf(b.accounts), b.journals, b.applied, a);
    }
  }

  // ---- every operation keeps the invariant --------------------------------

  /** Statuses do not enter the applied sum. */
  lemma {:induction false} AppliedSumSameLines(chart: Chart, j1: seq<Journal>, j2: seq<Journal>, applied: seq<nat>,
      a: nat)
    requires |applied| == |j1| == |j2| && forall i :: 0 <= i < |j1| ==> j1[i].lines == j2[i].lines
    ensures AppliedSum(chart, j1, applied, a) == AppliedSum(chart, j2, applied, a)
  {
    if j1 != [] {
      var n := |j1| - 1;
      AppliedSumSameLines(chart, j1[..n], j2[..n], applied[..n], a);
    }
  }

  /** Applying journal `k` once more adds its effect once more. */
  lemma {:induction false} AppliedSumOnceMore(chart: Chart, journals: seq<Journal>, applied: seq<nat>, k: nat, a: nat)
    requires k < |journals| == |applied|
    ensures AppliedSum(chart, journals, applied[k := applied[k] + 1], a)
         == AppliedSum(chart, journals, applied, a) + AccountSum(chart, journals[k].lines, a)
  {
    hide AccountSum;
    var n := |journals| - 1;
    var more := applied[k := applied[k] + 1];
    if k == n {
      assert more[..n] == applied[..n];
    } else {
      assert more[..n] == applied[..n][k := applied[k] + 1];
      AppliedSumOnceMore(chart, journals[..n], applied[..n], k, a);
    }
  }

  lemma AppliedSumSnoc(chart: Chart, journals: seq<Journal>, applied: seq<nat>, j: Journal, n: nat, a: nat)
    requires |applied| == |journals|
    ensures AppliedSum(chart, journals + [j], applied + [n], a)
         == AppliedSum(chart, journals, applied, a) + Times(n, AccountSum(chart, j.lines, a))
  {
    assert (journals + [j])[..|journals|] == journals && (applied + [n])[..|applied|] == applied;
  }

  /** A new account leaves the sums of the old ones alone and starts with nothing. */
  lemma {:induction false} AppliedSumNewAccount(chart: Chart, c: Category, journals: seq<Journal>, applied: seq<nat>,
      a: nat)
    requires |applied| == |journals| && PostedOnChart(chart, journals) && a <= |chart|
    ensures AppliedSum(chart + [c], journals, applied, a)
         == if a < |chart| then AppliedSum(chart, journals, applied, a) else 0
  {
    if journals != [] {
      var n := |journals| - 1;
      AppliedSumNewAccount(chart, c, journals[..n], applied[..n], a);
      var lines := journals[n].lines;
      assert OnChart(chart, lines);
      AccountSumNewAccount(chart, c, lines, a);
      if a == |chart| {
        TimesZero(applied[n]);
      }
    }
  }

  lemma {:induction false} AccountSumNewAccount(chart: Chart, c: Category, lines: seq<Line>, a: nat)
    requires OnChart(chart, lines) && a <= |chart|
    ensures AccountSum(chart + [c], lines, a) == if a < |chart| then AccountSum(chart, lines, a) else 0
  {
    if lines != [] {
      AccountSumNewAccount(chart, c, lines[..|lines| - 1], a);
    }
  }

  lemma {:induction false} TimesZero(n: nat)
    ensures Times(n, 0) == 0
  {
    if n > 0 {
      TimesZero(n - 1);
    }
  }

  lemma SetJournalKeeps(b: Books, j: nat, status: JournalStatus)
    requires BooksInv(b) && j < |b.journals|
    requires status == POSTED ==> b.journals[j].status == POSTED
    ensures BooksInv(SetJournal(b, j, status))
  {
    var r := SetJournal(b, j, status);
    forall a | 0 <= a < |b.accounts|
      ensures AppliedSum(ChartOf(b.accounts), r.journals, r.applied, a)
              == AppliedSum(ChartOf(b.accounts), b.journals, b.applied, a)
    {
      AppliedSumSameLines(ChartOf(b.accounts), r.journals, b.journals, b.applied, a);
    }
  }

  lemma PostNewKeeps(b: Books, date: Time, lines: seq<Line>)
    requires BooksInv(b) && OnAccounts(b.accounts, lines) && Even(lines)
    ensures BooksInv(PostNew(b, date, lines))
    ensures PostedOnce(b) ==> PostedOnce(PostNew(b, date, lines))
  {
    hide AppliedSum, AccountSum, ApplyLines;
    var r := PostNew(b, date, lines);
    var chart := ChartOf(b.accounts);
    ApplyLinesChart(b.accounts, lines);
    forall a | 0 <= a < |b.accounts|
      ensures r.accounts[a].balance == AppliedSum(chart, r.journals, r.applied, a)
    {
      ApplyLinesAdds(b.accounts, lines, a);
      AppliedSumSnoc(chart, b.journals, b.applied, Journal(date, POSTED, lines), 1, a);
      assert Times(1, AccountSum(chart, lines, a))
             == Times(0, AccountSum(chart, lines, a)) + AccountSum(chart, lines, a);
    }
  }

  /** The balances after posting an existing journal, posted before or not. */
  lemma PostExistingBalances(b: Books, j: nat)
    requires BooksInv(b) && j < |b.journals| && OnAccounts(b.accounts, b.journals[j].lines)
    ensures var accounts, chart := ApplyLines(b.accounts, b.journals[j].lines), ChartOf(b.accounts);
            && |accounts| == |b.accounts| && ChartOf(accounts) == chart
            && forall a :: 0 <= a < |accounts| ==>
                 accounts[a].balance == AppliedSum(chart, b.journals[j := b.journals[j].(status := POSTED)],
                   b.applied[j := b.applied[j] + 1], a)
  {
    hide AppliedSum, AccountSum, ApplyLines, PostedBalanced, PostedOnChart;
    var lines, chart := b.journals[j].lines, ChartOf(b.accounts);
    ApplyLinesChart(b.accounts, lines);
    forall a | 0 <= a < |b.accounts|
      ensures ApplyLines(b.accounts, lines)[a].balance
           == AppliedSum(chart, b.journals[j := b.journals[j].(status := POSTED)], b.applied[j := b.applied[j] + 1], a)
    {
      ApplyLinesAdds(b.accounts, lines, a);
      AppliedSumOnceMore(chart, b.journals, b.applied, j, a);
      AppliedSumSameLines(chart, b.journals[j := b.journals[j].(status := POSTED)], b.journals,
        b.applied[j := b.applied[j] + 1], a);
    }
  }

  /** Posting an existing journal: the count tells the truth even if it was posted before. */
  lemma PostExistingKeeps(b: Books, j: nat)
    requires BooksInv(b) && j < |b.journals|
    ensures BooksInv(PostExisting(b, j))
    ensures PostedOnce(b) && b.journals[j].status != POSTED ==> PostedOnce(PostExisting(b, j))
  {
    hide AppliedSum, ApplyLines, PeriodOpen, AllActive, ChartOf;
    if PostExisting(b, j).journals[j].status == REJECTED {
      SetJournalKeeps(b, j, REJECTED);
    } else {
      PostExistingBalances(b, j);
    }
  }

  lemma AddDraftKeeps(b: Books, date: Time, lines: seq<Line>)
    requires BooksInv(b)
    ensures BooksInv(AddDraft(b, date, lines))
    ensures PostedOnce(b) ==> PostedOnce(AddDraft(b, date, lines))
  {
    hide AppliedSum, AccountSum;
    var r := AddDraft(b, date, lines);
    if r != b {
      forall a | 0 <= a < |b.accounts|
        ensures AppliedSum(ChartOf(b.accounts), r.journals, r.applied, a)
                == AppliedSum(ChartOf(b.accounts), b.journals, b.applied, a)
      {
        AppliedSumSnoc(ChartOf(b.accounts), b.journals, b.applied, Journal(date, DRAFT, lines), 0, a);
      }
    }
  }

  lemma CreateAccountKeeps(b: Books, c: Category)
    requires BooksInv(b)
    ensures BooksInv(CreateAccount(b, c))
    ensures PostedOnce(b) ==> PostedOnce(CreateAccount(b, c))
  {
    hide AppliedSum;
    var r := CreateAccount(b, c);
    var chart := ChartOf(b.accounts);
    assert ChartOf(r.accounts) == chart + [c];
    forall a | 0 <= a < |r.accounts|
      ensures r.accounts[a].balance == AppliedSum(ChartOf(r.accounts), r.journals, r.applied, a)
    {
      AppliedSumNewAccount(chart, c, b.journals, b.applied, a);
    }
  }

  lemma SetActiveKeeps(b: Books, a: nat, active: bool)
    requires BooksInv(b)
    ensures BooksInv(SetActive(b, a, active))
    ensures PostedOnce(b) ==> PostedOnce(SetActive(b, a, active))
  {
    assert ChartOf(SetActive(b, a, active).accounts) == ChartOf(b.accounts);
  }

  /** Every automatic posting of equal sides keeps the books, whatever else has changed since it was decided. */
  lemma PostIfPresentKeeps(b: Books, date: Time, lines: seq<Line>)
    requires BooksInv(b) && Even(lines)
    ensures BooksInv(PostIfPresent(b, date, lines))
    ensures PostedOnce(b) ==> PostedOnce(PostIfPresent(b, date, lines))
  {
    hide BooksInv, PostedOnce, PostNew;
    if OnAccounts(b.accounts, lines) {
      PostNewKeeps(b, date, lines);
    }
  }

  lemma PeriodsKeep(b: Books, c: Books)
    requires BooksInv(b) && c == b.(periods := c.periods)
    ensures BooksInv(c)
    ensures PostedOnce(b) ==> PostedOnce(c)
  {
  }
}
