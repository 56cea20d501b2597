/** What goes wrong when request-posting is not one step: a run that posts one journal twice. */
module StalePosting {
  import opened Wrappers
  import opened GeneralLedger
  import opened AccountingEntries
  import opened CashDesk
  import opened Handlers
  import opened LedgerBooks
  import CustomerMerge
  import opened Approvals
  import opened Institution

  /** The re-checks that approving a posting makes. */
  predicate Postable(b: Books, j: nat)
    requires j < |b.journals|
  {
    var lines := b.journals[j].lines;
    IsBalanced(lines) && OnAccounts(b.accounts, lines) && AllActive(b.accounts, lines)
      && PeriodOpen(b, b.journals[j].postingDate)
  }

  lemma {:induction false} PostExistingPosts(b: Books, j: nat)
    requires j < |b.journals| == |b.applied| && Postable(b, j)
    ensures var c := PostExisting(b, j);
            && |c.accounts| == |b.accounts| && |c.journals| == |b.journals| && Postable(c, j)
            && c.journals == b.journals[j := b.journals[j].(status := POSTED)]
            && c.applied == b.applied[j := b.applied[j] + 1]
            && ChartOf(c.accounts) == ChartOf(b.accounts)
            && forall a :: 0 <= a < |b.accounts| ==>
                 c.accounts[a].balance
                   == b.accounts[a].balance + AccountSum(ChartOf(b.accounts), b.journals[j].lines, a)
  {
    hide ApplyLines, AccountSum, IsBalanced;
    var lines := b.journals[j].lines;
    ApplyLinesChart(b.accounts, lines);
    forall a | 0 <= a < |b.accounts|
      ensures ApplyLines(b.accounts, lines)[a]
              == b.accounts[a].(balance := b.accounts[a].balance + AccountSum(ChartOf(b.accounts), lines, a))
    {
      ApplyLinesAdds(b.accounts, lines, a);
    }
  }

  /** Two request-posting handlers read the draft, then both write; a second user then approves both requests. */
  function Race(s: State, j: nat, poster: User, approver: User, env: Env): seq<Event> {
    var d, r, n := |s.readings|, |s.requests|, |s.sessions|;
    [READ_DRAFT(j, poster)] + [READ_DRAFT(j, poster)] + [SUBMIT_POSTING(d)] + [SUBMIT_POSTING(d + 1)]
    + [READ_REQUEST(r, approver, Approve)] + [READ_REQUEST(r + 1, approver, Approve)] + [COMMIT(n, env)]
      + [COMMIT(n + 1, env)]
  }

  /** The state in which both requests wait and have been read by the approver. */
  function BothRead(s: State, j: nat, poster: User, approver: User): State
    requires j < |s.holdings.books.journals|
  {
    var r, q := |s.requests|, Request(JOURNAL_POSTING(j), poster, PENDING, None);
    s.(holdings := s.holdings.(books := SetJournal(s.holdings.books, j, PENDING_APPROVAL)),
       readings := s.readings + [Reading(j, poster), Reading(j, poster)],
       requests := s.requests + [q, q],
       sessions := s.sessions + [Session(r, approver, Approve), Session(r + 1, approver, Approve)])
  }

  lemma TwoReads(s: State, j: nat, poster: User)
    requires Aligned(s.holdings.books) && j < |s.holdings.books.journals|
             && s.holdings.books.journals[j].status == DRAFT
    ensures ReadDraft(ReadDraft(s, j, poster), j, poster)
            == s.(readings := s.readings + [Reading(j, poster), Reading(j, poster)])
  {
    assert s.readings + [Reading(j, poster)] + [Reading(j, poster)]
           == s.readings + [Reading(j, poster), Reading(j, poster)];
  }

  lemma TwoSubmits(s: State, d: nat, j: nat, poster: User)
    requires Aligned(s.holdings.books) && j < |s.holdings.books.journals|
    requires d + 1 < |s.readings| && s.readings[d] == s.readings[d + 1] == Reading(j, poster)
    ensures var q := Request(JOURNAL_POSTING(j), poster, PENDING, None);
            SubmitPosting(SubmitPosting(s, d), d + 1)
            == s.(holdings := s.holdings.(books := SetJournal(s.holdings.books, j, PENDING_APPROVAL)),
              requests := s.requests + [q, q])
  {
    var q := Request(JOURNAL_POSTING(j), poster, PENDING, None);
    assert s.requests + [q] + [q] == s.requests + [q, q];
    assert SetJournal(SetJournal(s.holdings.books, j, PENDING_APPROVAL), j, PENDING_APPROVAL)
           == SetJournal(s.holdings.books, j, PENDING_APPROVAL);
  }

  lemma TwoOpens(s: State, r: nat, approver: User)
    requires r + 1 < |s.requests| && s.requests[r] == s.requests[r + 1] && s.requests[r].status == PENDING
             && s.requests[r].requestedBy != approver
    ensures Open(Open(s, r, approver, Approve), r + 1, approver, Approve)
         == s.(sessions := s.sessions + [Session(r, approver, Approve), Session(r + 1, approver, Approve)])
  {
    assert s.sessions + [Session(r, approver, Approve)] + [Session(r + 1, approver, Approve)]
        == s.sessions + [Session(r, approver, Approve), Session(r + 1, approver, Approve)];
  }

  lemma RaceEvents(s: State, j: nat, poster: User, approver: User, env: Env)
    ensures var e := Race(s, j, poster, approver, env);
            && |e| == 8 && e[0] == e[1] == READ_DRAFT(j, poster)
            && e[2] == SUBMIT_POSTING(|s.readings|) && e[3] == SUBMIT_POSTING(|s.readings| + 1)
            && e[4] == READ_REQUEST(|s.requests|, approver, Approve)
            && e[5] == READ_REQUEST(|s.requests| + 1, approver, Approve)
            && e[6] == COMMIT(|s.sessions|, env) && e[7] == COMMIT(|s.sessions| + 1, env)
  {
  }

  /** The state after both drafts have been read, and then after both have been written. */
  function DraftsRead(s: State, j: nat, poster: User): State {
    s.(readings := s.readings + [Reading(j, poster), Reading(j, poster)])
  }

  function BothWritten(s: State, j: nat, poster: User): State
    requires j < |s.holdings.books.journals|
  {
    var q := Request(JOURNAL_POSTING(j), poster, PENDING, None);
    DraftsRead(s, j, poster).(holdings := s.holdings.(books := SetJournal(s.holdings.books, j, PENDING_APPROVAL)),
      requests := s.requests + [q, q])
  }

  lemma RaceDrafts(s: State, j: nat, poster: User, approver: User, env: Env)
    requires Aligned(s.holdings.books) && j < |s.holdings.books.journals|
             && s.holdings.books.journals[j].status == DRAFT
    ensures |Race(s, j, poster, approver, env)| == 8
    ensures Run(s, Race(s, j, poster, approver, env)[..2]) == DraftsRead(s, j, poster)
  {
    hide Run, Race, ReadDraft, Admit, WriteOut, SubmitPosting, Open, Commit;
    var e := Race(s, j, poster, approver, env);
    RaceEvents(s, j, poster, approver, env);
    RunNone(s);
    assert e[..0] == [];
    RunTwo(s, e, 0);
    TwoReads(s, j, poster);
  }

  lemma RaceWrites(s: State, j: nat, poster: User, approver: User, env: Env)
    requires Aligned(s.holdings.books) && j < |s.holdings.books.journals|
             && s.holdings.books.journals[j].status == DRAFT
    ensures |Race(s, j, poster, approver, env)| == 8
    ensures Run(s, Race(s, j, poster, approver, env)[..4]) == BothWritten(s, j, poster)
  {
    hide Run, Race, SubmitPosting, SetJournal;
    var e := Race(s, j, poster, approver, env);
    RaceEvents(s, j, poster, approver, env);
    RaceDrafts(s, j, poster, approver, env);
    RunTwo(s, e, 2);
    TwoSubmits(DraftsRead(s, j, poster), |s.readings|, j, poster);
  }

  lemma RaceReadsBoth(s: State, j: nat, poster: User, approver: User, env: Env)
    requires Aligned(s.holdings.books) && j < |s.holdings.books.journals|
             && s.holdings.books.journals[j].status == DRAFT && poster != approver
    ensures |Race(s, j, poster, approver, env)| == 8
    ensures Run(s, Race(s, j, poster, approver, env)[..6]) == BothRead(s, j, poster, approver)
  {
    hide Run, Race, Open, SetJournal;
    var e := Race(s, j, poster, approver, env);
    RaceEvents(s, j, poster, approver, env);
    RaceWrites(s, j, poster, approver, env);
    RunTwo(s, e, 4);
    TwoOpens(BothWritten(s, j, poster), |s.requests|, approver);
  }

  /** Session `i` approves request `r`, a pending posting of journal `j`. */
  predicate ReadyToPost(s: State, i: nat, r: nat, j: nat) {
    && i < |s.sessions| && s.sessions[i].request == r && s.sessions[i].decision == Approve
    && r < |s.requests| && Awaits(s.requests[r], j) && j < |s.holdings.books.journals|
  }

  lemma CommitPosts(s: State, i: nat, r: nat, j: nat, env: Env)
    requires Aligned(s.holdings.books) && ReadyToPost(s, i, r, j)
    ensures Commit(s, i, env).holdings.books == PostExisting(s.holdings.books, j)
    ensures forall k, t :: t != r && ReadyToPost(s, k, t, j) ==> ReadyToPost(Commit(s, i, env), k, t, j)
  {
    hide IsBalanced, OnAccounts, AllActive, PeriodOpen, ApplyLines;
  }

  lemma BothReady(s: State, j: nat, poster: User, approver: User)
    requires j < |s.holdings.books.journals|
    ensures var s6 := BothRead(s, j, poster, approver);
            ReadyToPost(s6, |s.sessions|, |s.requests|, j) && ReadyToPost(s6, |s.sessions| + 1, |s.requests| + 1, j)
  {
  }

  /** The two commits of the race. */
  lemma RaceCommitsBoth(s: State, j: nat, poster: User, approver: User, env: Env)
    requires Aligned(s.holdings.books) && j < |s.holdings.books.journals|
             && s.holdings.books.journals[j].status == DRAFT && poster != approver
    ensures Run(s, Race(s, j, poster, approver, env)).holdings.books
         == PostExisting(PostExisting(SetJournal(s.holdings.books, j, PENDING_APPROVAL), j), j)
  {
    var n := |s.sessions|;
    var e := Race(s, j, poster, approver, env);
    RaceEvents(s, j, poster, approver, env);
    assert e[..8] == e;
    RunTwo(s, e, 6);
    hide Run, Race, BothRead, PostExisting, Commit, ReadyToPost;
    RaceReadsBoth(s, j, poster, approver, env);
    var s6 := BothRead(s, j, poster, approver);
    BothReady(s, j, poster, approver);
    BothReadBooks(s, j, poster, approver);
    CommitPosts(s6, n, |s.requests|, j, env);
    CommitPosts(Commit(s6, n, env), n + 1, |s.requests| + 1, j, env);
  }

  lemma BothReadBooks(s: State, j: nat, poster: User, approver: User)
    requires j < |s.holdings.books.journals|
    ensures BothRead(s, j, poster, approver).holdings.books == SetJournal(s.holdings.books, j, PENDING_APPROVAL)
  {
  }

  /**
    For every draft that would be posted, and every state: the run ends with
    the journal posted once in history and twice in the stored balances.
   */
  lemma StalePostingAppliesTwice(s: State, j: nat, poster: User, approver: User, env: Env)
    requires Aligned(s.holdings.books) && j < |s.holdings.books.journals|
             && s.holdings.books.journals[j].status == DRAFT
    requires poster != approver && Postable(s.holdings.books, j)
    ensures var before, after := s.holdings.books, Run(s, Race(s, j, poster, approver, env)).holdings.books;
            && |after.accounts| == |before.accounts| && ChartOf(after.accounts) == ChartOf(before.accounts)
            && after.journals == before.journals[j := before.journals[j].(status := POSTED)]
            && after.applied[j] == before.applied[j] + 2
            && forall a :: 0 <= a < |before.accounts| ==>
                 after.accounts[a].balance
                 == before.accounts[a].balance + 2 * AccountSum(ChartOf(before.accounts), before.journals[j].lines, a)
  {
    hide Run, Race, AccountSum, PostExisting, IsBalanced, OnAccounts, AllActive, ChartOf;
    RaceCommitsBoth(s, j, poster, approver, env);
    var b := SetJournal(s.holdings.books, j, PENDING_APPROVAL);
    assert PeriodOpen(b, b.journals[j].postingDate);
    assert Postable(b, j);
    PostExistingPosts(b, j);
    PostExistingPosts(PostExisting(b, j), j);
  }

  /** Posting a journal adds its lines to the replayed history once. */
  lemma {:induction false} ReplayGains(chart: Chart, journals: seq<Journal>, j: nat, a: nat)
    requires j < |journals| && journals[j].status != POSTED
    ensures AccountSum(chart, AllPosted(journals[j := journals[j].(status := POSTED)]), a)
         == AccountSum(chart, AllPosted(journals), a) + AccountSum(chart, journals[j].lines, a)
  {
    var n := |journals| - 1;
    var posted := journals[j := journals[j].(status := POSTED)];
    if j == n {
      assert posted[..n] == journals[..n];
      TotalConcat(EffectOn(chart, a), AllPosted(journals[..n]), journals[n].lines);
      assert AllPosted(journals[..n]) + [] == AllPosted(journals[..n]);
    } else {
      var last := if journals[n].status == POSTED then journals[n].lines else [];
      assert posted[..n] == journals[..n][j := journals[j].(status := POSTED)];
      ReplayGains(chart, journals[..n], j, a);
      TotalConcat(EffectOn(chart, a), AllPosted(posted[..n]), last);
      TotalConcat(EffectOn(chart, a), AllPosted(journals[..n]), last);
    }
  }

  /** So whenever the journal moves any account at all, stored balances no longer equal replayed history. */
  lemma StalePostingBreaksReplay(s: State, j: nat, poster: User, approver: User, env: Env, a: nat)
    requires Aligned(s.holdings.books) && j < |s.holdings.books.journals|
             && s.holdings.books.journals[j].status == DRAFT
    requires poster != approver && Postable(s.holdings.books, j) && StoredIsReplayed(s.holdings.books)
    requires a < |s.holdings.books.accounts|
             && AccountSum(ChartOf(s.holdings.books.accounts), s.holdings.books.journals[j].lines, a) != 0
    ensures !StoredIsReplayed(Run(s, Race(s, j, poster, approver, env)).holdings.books)
  {
    hide Run, Race, AccountSum, ChartOf, AllPosted, Aggregate, IsBalanced;
    var before, after := s.holdings.books, Run(s, Race(s, j, poster, approver, env)).holdings.books;
    var chart := ChartOf(before.accounts);
    StalePostingAppliesTwice(s, j, poster, approver, env);
    ReplayGains(chart, before.journals, j, a);
    AggregateIsAccountSum(chart, AllPosted(before.journals), a);
    if StoredIsReplayed(after) {
      AggregateIsAccountSum(chart, AllPosted(after.journals), a);
    }
  }

  // ---- from nothing ---------------------------------------------------------

  /** One cent of income received in cash. */
  const SALE: seq<Line> := TwoLines(0, 1, 1)

  /** Two accounts, a period and a draft. */
  const SETUP: seq<Event> := [
    ADMIT(CHANGE(CREATE_ACCOUNT(ASSET))), WRITE(0),
    ADMIT(CHANGE(CREATE_ACCOUNT(INCOME))), WRITE(1),
    ADMIT(CHANGE(CREATE_PERIOD(0, 10))), WRITE(2),
    ADMIT(CHANGE(CREATE_JOURNAL(5, SALE))), WRITE(3)]

  function Draft(crm: CustomerMerge.Crm): State {
    Initial(crm).(
      holdings := Holdings(
        Books([Account(ASSET, true, 0), Account(INCOME, true, 0)], [Journal(5, DRAFT, SALE)], [0],
          [Period(0, 10, OPEN)]), Desk([], []), crm),
      admitted := [CHANGE(CREATE_ACCOUNT(ASSET)), CHANGE(CREATE_ACCOUNT(INCOME)), CHANGE(CREATE_PERIOD(0, 10)),
        CHANGE(CREATE_JOURNAL(5, SALE))])
  }

  /** A handler nobody comes between: its checks, then its writes. */
  lemma AdmitThenWrite(s: State, c: Change, i: nat)
    requires Aligned(s.holdings.books) && Admits(s.holdings, c) && i == |s.admitted|
    ensures Next(Next(s, ADMIT(CHANGE(c))), WRITE(i))
            == s.(admitted := s.admitted + [CHANGE(c)], holdings := Direct(s.holdings, c))
  {
    hide Admits, Perform;
  }

  lemma SetupReachesDraft(crm: CustomerMerge.Crm)
    ensures Run(Initial(crm), SETUP) == Draft(crm)
  {
    hide Run, Next, IsBalanced;
    var s := Initial(crm);
    RunNone(s);
    assert SETUP[..0] == [] && SETUP[..8] == SETUP;
    RunTwo(s, SETUP, 0);
    RunTwo(s, SETUP, 2);
    RunTwo(s, SETUP, 4);
    RunTwo(s, SETUP, 6);
    AdmitThenWrite(s, CREATE_ACCOUNT(ASSET), 0);
    var s2 := Run(s, SETUP[..2]);
    AdmitThenWrite(s2, CREATE_ACCOUNT(INCOME), 1);
    var s4 := Run(s, SETUP[..4]);
    AdmitThenWrite(s4, CREATE_PERIOD(0, 10), 2);
    var s6 := Run(s, SETUP[..6]);
    assert s6.holdings.books
           == Books([Account(ASSET, true, 0), Account(INCOME, true, 0)], [], [], [Period(0, 10, OPEN)]);
    SaleIsGood();
    AdmitThenWrite(s6, CREATE_JOURNAL(5, SALE), 3);
  }

  lemma SaleIsGood()
    ensures GoodDraft(SALE) && IsBalanced(SALE)
  {
    TwoLinesSums(0, 1, 1);
  }

  lemma SaleMovesCash()
    ensures AccountSum([ASSET, INCOME], SALE, 0) == 1
  {
    Snoc(EffectOn([ASSET, INCOME], 0), SALE);
    Snoc(EffectOn([ASSET, INCOME], 0), SALE[..1]);
  }

  /** A run from an empty institution that ends with stored balances other than replayed history. */
  lemma ARunThatDrifts(crm: CustomerMerge.Crm, env: Env)
    ensures !StoredIsReplayed(Run(Initial(crm), SETUP + Race(Draft(crm), 0, 1, 2, env)).holdings.books)
  {
    hide Run, Race;
    SetupReachesDraft(crm);
    RunConcat(Initial(crm), SETUP, Race(Draft(crm), 0, 1, 2, env));
    var b := Draft(crm).holdings.books;
    SaleIsGood();
    SaleMovesCash();
    assert ChartOf(b.accounts) == [ASSET, INCOME];
    assert AllPosted(b.journals) == [] by { assert b.journals[..0] == []; }
    StalePostingBreaksReplay(Draft(crm), 0, 1, 2, env, 0);
  }
}
