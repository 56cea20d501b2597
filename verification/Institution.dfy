/**
  A whole institution as a state machine: the manual, automatic and approved
  postings of the ledger, the movements of vaults and tellers, and every
  approval step, in any order and interleaving. Every handler's checks are
  one step and its writes another. The main results hold in every state any
  run can reach.
 */
module Institution {
  import opened Wrappers
  import opened Calendar
  import opened Money
  import opened GeneralLedger
  import opened LedgerReports
  import opened AccountingEntries
  import opened LedgerBooks
  import opened CashDesk
  import opened Handlers
  import opened Approvals
  import CustomerMerge

  // ---- events and runs ----------------------------------------------------

  datatype Event =
    | ADMIT(work: Work)
    | WRITE(admission: nat)
    | READ_DRAFT(journal: nat, poster: User)
    | SUBMIT_POSTING(reading: nat)
    | READ_REQUEST(request: nat, resolver: User, decision: Decision)
    | COMMIT(session: nat, env: Env)

  function Next(s: State, e: Event): (r: State)
    requires Aligned(s.holdings.books)
    ensures Aligned(r.holdings.books)
  {
    match e
    case ADMIT(w) => Admit(s, w)
    case WRITE(i) => WriteOut(s, i)
    case READ_DRAFT(j, user) => ReadDraft(s, j, user)
    case SUBMIT_POSTING(i) => SubmitPosting(s, i)
    case READ_REQUEST(r, user, decision) => Open(s, r, user, decision)
    case COMMIT(i, env) => Commit(s, i, env)
  }

  function Run(s: State, events: seq<Event>): (r: State)
    requires Aligned(s.holdings.books)
    ensures Aligned(r.holdings.books)
  {
    if events == [] then s else Next(Run(s, events[..|events| - 1]), events[|events| - 1])
  }

  lemma RunSnoc(s: State, events: seq<Event>, e: Event)
    requires Aligned(s.holdings.books)
    ensures Run(s, events + [e]) == Next(Run(s, events), e)
  {
    assert (events + [e])[..|events|] == events;
  }

  lemma RunNone(s: State)
    requires Aligned(s.holdings.books)
    ensures Run(s, []) == s
  {
  }

  /** A run of two more events. */
  lemma RunTwo(s: State, events: seq<Event>, i: nat)
    requires Aligned(s.holdings.books) && i + 2 <= |events|
    ensures Run(s, events[..i + 2]) == Next(Next(Run(s, events[..i]), events[i]), events[i + 1])
  {
    hide Next;
    assert events[..i + 2] == events[..i + 1] + [events[i + 1]] && events[..i + 1] == events[..i] + [events[i]];
    RunSnoc(s, events[..i + 1], events[i + 1]);
    RunSnoc(s, events[..i], events[i]);
  }

  lemma {:induction false} RunConcat(s: State, first: seq<Event>, second: seq<Event>)
    requires Aligned(s.holdings.books)
    ensures Run(s, first + second) == Run(Run(s, first), second)
  {
    hide Next;
    if second == [] {
      assert first + second == first;
    } else {
      var n := |second| - 1;
      RunConcat(s, first, second[..n]);
      assert first + second == (first + second[..n]) + [second[n]] && second == second[..n] + [second[n]];
      RunSnoc(s, first + second[..n], second[n]);
      RunSnoc(Run(s, first), second[..n], second[n]);
    }
  }

  ghost predicate Inv(s: State) {
    HoldingsInv(s.holdings) && ApprovalInv(s)
  }

  // ---- every step keeps the invariant --------------------------------------

  lemma SubmitPostingKeeps(s: State, i: nat)
    requires Inv(s)
    ensures Aligned(s.holdings.books)
    ensures Inv(SubmitPosting(s, i))
  {
    assert Aligned(s.holdings.books);
    hide ApprovalInv, BooksInv, DeskInv;
    if i < |s.readings| && s.readings[i].journal < |s.holdings.books.journals| {
      var j := s.readings[i].journal;
      SubmitKeepsApprovals(s, JOURNAL_POSTING(j), s.readings[i].user);
      SetJournalKeeps(s.holdings.books, j, PENDING_APPROVAL);
      HoldingsDoNotMatter(Submit(s, JOURNAL_POSTING(j), s.readings[i].user), SubmitPosting(s, i));
    }
  }

  lemma WriteKeeps(s: State, i: nat)
    requires Inv(s)
    ensures Aligned(s.holdings.books)
    ensures Inv(WriteOut(s, i))
  {
    assert Aligned(s.holdings.books);
    if i < |s.admitted| {
      assert SoundWork(s.admitted[i]);
      hide ApprovalInv, HoldingsInv, Perform, Sound, WellFormed;
      match s.admitted[i] {
        case CHANGE(c) =>
          PerformKeeps(s.holdings, c);
          HoldingsDoNotMatter(s, WriteOut(s, i));
        case REQUEST(k, user) => SubmitKeepsApprovals(s, k, user);
      }
    }
  }

  lemma NextKeeps(s: State, e: Event)
    requires Inv(s)
    ensures Aligned(s.holdings.books)
    ensures Inv(Next(s, e))
  {
    assert Aligned(s.holdings.books);
    hide ApprovalInv, HoldingsInv, WriteOut, Commit, SubmitPosting, Apply, Admits, MayRequest;
    match e {
      case ADMIT(w) => AdmitKeepsApprovals(s, w);
      case WRITE(i) => WriteKeeps(s, i);
      case READ_DRAFT(j, user) => HoldingsDoNotMatter(s, Next(s, e));
      case SUBMIT_POSTING(i) => SubmitPostingKeeps(s, i);
      case READ_REQUEST(r, user, decision) => OpenKeepsApprovals(s, r, user, decision);
      case COMMIT(i, env) =>
        CommitKeepsHoldings(s, i, env);
        CommitKeepsApprovals(s, i, env);
    }
  }

  /** A direct change that nobody comes between keeps the invariant too. */
  lemma DirectStepKeeps(s: State, c: Change)
    requires Inv(s)
    ensures Aligned(s.holdings.books)
    ensures Inv(s.(holdings := Direct(s.holdings, c)))
  {
    assert Aligned(s.holdings.books);
    hide ApprovalInv, HoldingsInv, Direct;
    DirectKeeps(s.holdings, c);
    HoldingsDoNotMatter(s, s.(holdings := Direct(s.holdings, c)));
  }

  /**
    In every state of every run, whatever the interleaving: balances are what
    was applied, posted journals balance, cash is explained entry by entry
    and never negative, requests are resolved once and by someone else.
   */
  lemma {:induction false} RunKeeps(s: State, events: seq<Event>)
    requires Inv(s)
    ensures Aligned(s.holdings.books)
    ensures Inv(Run(s, events))
  {
    assert Aligned(s.holdings.books);
    hide Inv, Next;
    if events != [] {
      RunKeeps(s, events[..|events| - 1]);
      NextKeeps(Run(s, events[..|events| - 1]), events[|events| - 1]);
    }
  }

  function Initial(crm: CustomerMerge.Crm): State {
    State(Holdings(Books([], [], [], []), Desk([], []), crm), [], [], [], [], [])
  }

  lemma InitialInv(crm: CustomerMerge.Crm)
    ensures Inv(Initial(crm)) && Clean(Initial(crm))
  {
    NoBooks();
    NothingAsked(crm);
    hide BooksInv, PostedOnce, ApprovalInv, QueueInv;
  }

  lemma NothingAsked(crm: CustomerMerge.Crm)
    ensures ApprovalInv(Initial(crm)) && QueueInv([], [])
  {
    hide RequestInv, SoundWork;
  }

  lemma NoBooks()
    ensures BooksInv(Books([], [], [], [])) && PostedOnce(Books([], [], [], []))
  {
  }

  // ---- the stored balances ------------------------------------------------

  /** The guard under which request-posting's write is harmless: its journal is not posted and nothing waits for it. */
  predicate Fresh(s: State, e: Event) {
    e.SUBMIT_POSTING? && e.reading < |s.readings| && s.readings[e.reading].journal < |s.holdings.books.journals| ==>
      var j := s.readings[e.reading].journal;
      s.holdings.books.journals[j].status != POSTED && forall r :: 0 <= r < |s.requests| ==> !Awaits(s.requests[r], j)
  }

  predicate FreshRun(s: State, events: seq<Event>)
    requires Aligned(s.holdings.books)
  {
    events == [] || (FreshRun(s, events[..|events| - 1]) && Fresh(Run(s, events[..|events| - 1]), events[|events| - 1]))
  }

  lemma SubmitKeepsClean(s: State, k: Kind, user: User)
    requires Clean(s) && !k.JOURNAL_POSTING?
    ensures Clean(Submit(s, k, user))
  {
    hide PostedOnce;
  }

  lemma WriteKeepsClean(s: State, i: nat)
    requires Inv(s) && Clean(s)
    ensures Aligned(s.holdings.books)
    ensures Clean(WriteOut(s, i))
  {
    assert Aligned(s.holdings.books);
    if i < |s.admitted| {
      assert SoundWork(s.admitted[i]);
      match s.admitted[i] {
        case CHANGE(c) =>
          assert HoldingsInv(s.holdings) && QueueInv(s.holdings.books.journals, s.requests)
                 && PostedOnce(s.holdings.books);
          hide HoldingsInv, ApprovalInv, QueueInv, PostedOnce, Perform, Sound;
          PerformKeeps(s.holdings, c);
          PerformExtendsJournals(s.holdings, c);
          QueueGrows(s.holdings.books.journals, Perform(s.holdings, c).books.journals, s.requests);
        case REQUEST(k, user) =>
          hide Inv, Clean, Submit;
          SubmitKeepsClean(s, k, user);
      }
    }
  }

  lemma NextKeepsClean(s: State, e: Event)
    requires Inv(s) && Clean(s) && Fresh(s, e)
    ensures Aligned(s.holdings.books)
    ensures Clean(Next(s, e))
  {
    assert Aligned(s.holdings.books);
    match e {
      case ADMIT(w) =>
        hide Inv, PostedOnce, QueueInv, Admits, MayRequest;
      case WRITE(i) =>
        hide Inv, Clean, WriteOut;
        WriteKeepsClean(s, i);
      case READ_DRAFT(j, user) =>
        hide Inv, PostedOnce, QueueInv;
      case SUBMIT_POSTING(i) =>
        hide Inv, Clean;
        if i < |s.readings| && s.readings[i].journal < |s.holdings.books.journals| {
          SubmitPostingIsCleanWhen(s, i);
        }
      case READ_REQUEST(r, user, decision) =>
        hide Inv, PostedOnce, QueueInv;
      case COMMIT(i, env) =>
        hide HoldingsInv, ApprovalInv, Clean, Commit;
        CommitKeepsClean(s, i, env);
    }
  }

  ghost predicate CleanThroughout(s: State, events: seq<Event>)
    requires Aligned(s.holdings.books)
  {
    Clean(Run(s, events)) && (events == [] || CleanThroughout(s, events[..|events| - 1]))
  }

  lemma StaleSubmitSpoils(s: State, e: Event)
    requires Inv(s) && Clean(s) && !Fresh(s, e)
    ensures Aligned(s.holdings.books)
    ensures !Clean(Next(s, e))
  {
    assert Aligned(s.holdings.books);
    hide Inv, Clean;
    SubmitPostingIsCleanWhen(s, e.reading);
  }

  /**
    Over any run, journals are applied as often as their status says and the
    posting queue is in order in every state if and only if every write of
    request-posting meets that guard.
   */
  lemma {:induction false} CleanThroughoutWhen(s: State, events: seq<Event>)
    requires Inv(s) && Clean(s)
    ensures Aligned(s.holdings.books)
    ensures CleanThroughout(s, events) <==> FreshRun(s, events)
  {
    assert Aligned(s.holdings.books);
    hide Inv, Next, Clean, Fresh;
    if events == [] {
      RunNone(s);
    } else {
      CleanThroughoutWhen(s, events[..|events| - 1]);
      if FreshRun(s, events[..|events| - 1]) {
        var before, e := Run(s, events[..|events| - 1]), events[|events| - 1];
        RunKeeps(s, events[..|events| - 1]);
        if Fresh(before, e) {
          NextKeepsClean(before, e);
        } else {
          StaleSubmitSpoils(before, e);
        }
      }
    }
  }

  /**
    The index equals the replay. In every state that any run reaches from an
    empty institution under that guard, each journal has been applied once if
    it is POSTED and never otherwise, and each account's stored balance is
    what aggregateBalancesAsOf finds in all posted lines.
   */
  lemma StoredBalancesAreReplayed(crm: CustomerMerge.Crm, events: seq<Event>)
    requires FreshRun(Initial(crm), events)
    ensures PostedOnce(Run(Initial(crm), events).holdings.books)
    ensures StoredIsReplayed(Run(Initial(crm), events).holdings.books)
  {
    var s := Run(Initial(crm), events);
    InitialInv(crm);
    RunKeeps(Initial(crm), events);
    CleanThroughoutWhen(Initial(crm), events);
    assert BooksInv(s.holdings.books) && PostedOnce(s.holdings.books);
    hide BooksInv, PostedOnce, StoredIsReplayed, Run, FreshRun;
    PostedOnceMeansReplayed(s.holdings.books);
  }

  /**
    And without that assumption, the difference is exactly the journals applied more
    or less often than their status says.
   */
  lemma StoredBalancesInAnyRun(crm: CustomerMerge.Crm, events: seq<Event>, a: nat)
    ensures var b := Run(Initial(crm), events).holdings.books;
            && OnChart(ChartOf(b.accounts), AllPosted(b.journals))
            && (a < |b.accounts| ==>
                  b.accounts[a].balance
                  == Get(Aggregate(ChartOf(b.accounts), AllPosted(b.journals)), a)
                    + Drift(ChartOf(b.accounts), b.journals, b.applied, a))
  {
    var s := Run(Initial(crm), events);
    InitialInv(crm);
    RunKeeps(Initial(crm), events);
    assert BooksInv(s.holdings.books) && PostedOnChart(ChartOf(s.holdings.books.accounts), s.holdings.books.journals);
    hide BooksInv, Run, Drift, Aggregate;
    AllPostedOnChart(ChartOf(s.holdings.books.accounts), s.holdings.books.journals);
    if a < |s.holdings.books.accounts| {
      StoredIsReplayedPlusDrift(s.holdings.books, a);
    }
  }

  /** In any run and on any date, the trial balance's two columns are equal. */
  lemma TrialBalanceInAnyRun(crm: CustomerMerge.Crm, events: seq<Event>, asOf: Time)
    ensures var b := Run(Initial(crm), events).holdings.books;
            && OnChart(ChartOf(b.accounts), PostedUpTo(b.journals, asOf))
            && var rows := TrialBalance(ChartOf(b.accounts), PostedUpTo(b.journals, asOf));
               TotalDebit(rows) == TotalCredit(rows)
  {
    var s := Run(Initial(crm), events);
    InitialInv(crm);
    RunKeeps(Initial(crm), events);
    var b := s.holdings.books;
    assert BooksInv(b);
    assert PostedOnChart(ChartOf(b.accounts), b.journals) && PostedBalanced(b.journals);
    hide Run, PostedOnChart, PostedBalanced, BooksInv, TrialBalance;
    TrialBalanceBalances(ChartOf(b.accounts), b.journals, asOf);
  }

  // ---- at most once -------------------------------------------------------

  /** Whether this step is a transaction that applies the effect of request `r`. */
  predicate AppliesEffect(s: State, e: Event, r: nat)
    requires Aligned(s.holdings.books)
  {
    && e.COMMIT? && e.session < |s.sessions| && s.sessions[e.session].request == r
    && s.sessions[e.session].decision == Approve
    && r < |s.requests| && s.requests[r].status == PENDING && Apply(s.holdings, s.requests[r].kind, e.env).Some?
  }

  /** How often a run applies the effect of request `r`. */
  function Applications(s: State, events: seq<Event>, r: nat): nat
    requires Aligned(s.holdings.books)
  {
    if events == [] then 0
    else
      var before := Run(s, events[..|events| - 1]);
      Applications(s, events[..|events| - 1], r) + if AppliesEffect(before, events[|events| - 1], r) then 1 else 0
  }

  predicate IsApproved(s: State, r: nat) { r < |s.requests| && s.requests[r].status == APPROVED }

  /** A step changes a request only out of PENDING, and never what it asks for or who asked. */
  lemma NextAndRequest(s: State, e: Event, r: nat)
    requires Aligned(s.holdings.books)
    ensures var t := Next(s, e);
            && |s.requests| <= |t.requests|
            && (r < |s.requests| ==>
               t.requests[r].kind == s.requests[r].kind && t.requests[r].requestedBy == s.requests[r].requestedBy)
            && (r < |s.requests| && s.requests[r].status != PENDING ==> t.requests[r] == s.requests[r])
            && (IsApproved(t, r) <==> IsApproved(s, r) || AppliesEffect(s, e, r))
            && !(IsApproved(s, r) && AppliesEffect(s, e, r))
  {
    hide Apply, Undo, Perform, Admits, MayRequest, SetJournal;
  }

  /**
    Over any run, with any number of approvers and rejecters who all read
    the request while it was pending: its effect is applied once if the run
    takes it to APPROVED, and never otherwise.
   */
  lemma {:induction false} AppliedAtMostOnce(s: State, events: seq<Event>, r: nat)
    requires Aligned(s.holdings.books)
    ensures Applications(s, events, r) == (if IsApproved(Run(s, events), r) && !IsApproved(s, r) then 1 else 0)
    ensures IsApproved(s, r) ==> IsApproved(Run(s, events), r)
  {
    hide Next, AppliesEffect, IsApproved;
    if events != [] {
      AppliedAtMostOnce(s, events[..|events| - 1], r);
      NextAndRequest(Run(s, events[..|events| - 1]), events[|events| - 1], r);
    }
  }

  /** A resolved request never changes again. */
  lemma {:induction false} ResolvedForever(s: State, events: seq<Event>, r: nat)
    requires Aligned(s.holdings.books) && r < |s.requests| && s.requests[r].status != PENDING
    ensures r < |Run(s, events).requests| && Run(s, events).requests[r] == s.requests[r]
  {
    hide Next, AppliesEffect, IsApproved;
    if events != [] {
      ResolvedForever(s, events[..|events| - 1], r);
      NextAndRequest(Run(s, events[..|events| - 1]), events[|events| - 1], r);
    }
  }

  /** So everybody else who had read it in time commits nothing, however much later. */
  lemma LosersCommitNothing(s: State, events: seq<Event>, i: nat, env: Env)
    requires Aligned(s.holdings.books) && i < |s.sessions|
    requires s.sessions[i].request < |s.requests| && s.requests[s.sessions[i].request].status != PENDING
    ensures Commit(Run(s, events), i, env) == Run(s, events)
  {
    ResolvedForever(s, events, s.sessions[i].request);
    SessionsStay(s, events);
  }

  lemma {:induction false} SessionsStay(s: State, events: seq<Event>)
    requires Aligned(s.holdings.books)
    ensures s.sessions <= Run(s, events).sessions
  {
    if events != [] {
      SessionsStay(s, events[..|events| - 1]);
      NextSessions(Run(s, events[..|events| - 1]), events[|events| - 1]);
    }
  }

  lemma NextSessions(s: State, e: Event)
    requires Aligned(s.holdings.books)
    ensures s.sessions <= Next(s, e).sessions
  {
    hide Apply, Undo, Perform, Admits, MayRequest, SetJournal;
  }

  // ---- cash ---------------------------------------------------------------

  function EventFlow(s: State, e: Event): int
    requires Aligned(s.holdings.books)
  {
    if e.WRITE? && e.admission < |s.admitted| && s.admitted[e.admission].CHANGE?
    then Flow(s.holdings, s.admitted[e.admission].change)
    else 0
  }

  function Flows(s: State, events: seq<Event>): int
    requires Aligned(s.holdings.books)
  {
    if events == [] then 0
    else Flows(s, events[..|events| - 1]) + EventFlow(Run(s, events[..|events| - 1]), events[|events| - 1])
  }

  lemma CommitTotal(s: State, i: nat, env: Env)
    requires Aligned(s.holdings.books)
    ensures TotalCash(Commit(s, i, env).holdings.desk.holders) == TotalCash(s.holdings.desk.holders)
  {
    hide TotalCash, Transfer, ApplyToBooks, ApplyToCrm, SetJournal;
    if i < |s.sessions| && s.sessions[i].request < |s.requests| {
      var k := s.requests[s.sessions[i].request].kind;
      if k.CASH_TRANSFER? && k.from < |s.holdings.desk.holders| && k.to < |s.holdings.desk.holders| {
        TransferConserves(s.holdings.desk, k.from, k.to, k.amount);
      }
    }
  }

  /** Cash is conserved: over any run, approvals move it but only bank entries and disbursements change the total. */
  lemma {:induction false} CashIsConserved(s: State, events: seq<Event>)
    requires Aligned(s.holdings.books)
    ensures TotalCash(Run(s, events).holdings.desk.holders) == TotalCash(s.holdings.desk.holders) + Flows(s, events)
  {
    if events != [] {
      var before, e := Run(s, events[..|events| - 1]), events[|events| - 1];
      CashIsConserved(s, events[..|events| - 1]);
      hide Run, EventFlow, Next;
      NextTotal(before, e);
    }
  }

  lemma NextTotal(s: State, e: Event)
    requires Aligned(s.holdings.books)
    ensures TotalCash(Next(s, e).holdings.desk.holders) == TotalCash(s.holdings.desk.holders) + EventFlow(s, e)
  {
    hide TotalCash, Perform, Flow, Commit, SetJournal, Admits, MayRequest;
    match e {
      case WRITE(i) =>
        if i < |s.admitted| && s.admitted[i].CHANGE? {
          PerformTotal(s.holdings, s.admitted[i].change);
        }
      case COMMIT(i, env) => CommitTotal(s, i, env);
      case _ =>
    }
  }

  // ---- financial periods ----------------------------------------------------

  ghost predicate NoOverlap(periods: seq<Period>) {
    forall i, j :: 0 <= i < j < |periods| ==> !Overlap(periods[i], periods[j].startDate, periods[j].endDate)
  }

  /** Where the write of a new period finds that its check still holds. */
  predicate Clear(s: State, e: Event) {
    e.WRITE? && e.admission < |s.admitted| && s.admitted[e.admission].CHANGE?
      && s.admitted[e.admission].change.CREATE_PERIOD? ==>
      MayCreatePeriod(s.holdings.books, s.admitted[e.admission].change.startDate,
        s.admitted[e.admission].change.endDate)
  }

  predicate ClearRun(s: State, events: seq<Event>)
    requires Aligned(s.holdings.books)
  {
    events == [] || (ClearRun(s, events[..|events| - 1]) && Clear(Run(s, events[..|events| - 1]), events[|events| - 1]))
  }

  /** Same dates, whatever the statuses. */
  lemma SameDatesSameOverlap(periods: seq<Period>, more: seq<Period>)
    requires |more| == |periods|
    requires forall i :: 0 <= i < |periods| ==>
             more[i].startDate == periods[i].startDate && more[i].endDate == periods[i].endDate
    ensures NoOverlap(more) <==> NoOverlap(periods)
  {
    assert forall i, j :: 0 <= i < j < |periods| ==>
             (Overlap(more[i], more[j].startDate, more[j].endDate)
              <==> Overlap(periods[i], periods[j].startDate, periods[j].endDate));
  }

  /** A new period leaves the others apart exactly when the check still passes as it is written. */
  lemma AddPeriodNoOverlap(b: Books, startDate: Time, endDate: Time)
    ensures NoOverlap(AddPeriod(b, startDate, endDate).periods)
            <==> NoOverlap(b.periods) && MayCreatePeriod(b, startDate, endDate)
  {
    var r, n := AddPeriod(b, startDate, endDate).periods, |b.periods|;
    if NoOverlap(r) {
      forall i | 0 <= i < n
        ensures !Overlap(b.periods[i], startDate, endDate)
      {
        assert !Overlap(r[i], r[n].startDate, r[n].endDate);
      }
      forall i, j | 0 <= i < j < n
        ensures !Overlap(b.periods[i], b.periods[j].startDate, b.periods[j].endDate)
      {
        assert !Overlap(r[i], r[j].startDate, r[j].endDate);
      }
    }
  }

  lemma NextPeriods(s: State, e: Event)
    requires Aligned(s.holdings.books)
    ensures NoOverlap(Next(s, e).holdings.books.periods) <==> NoOverlap(s.holdings.books.periods) && Clear(s, e)
  {
    hide NoOverlap, OnAccounts, IsBalanced, PeriodOpen, ApplyLines, TwoLines, AllActive, Covers, Admits, MayRequest,
         MayCreatePeriod;
    var was, now := s.holdings.books.periods, Next(s, e).holdings.books.periods;
    if e.WRITE? && e.admission < |s.admitted| && s.admitted[e.admission].CHANGE?
       && s.admitted[e.admission].change.CREATE_PERIOD? {
      AddPeriodNoOverlap(s.holdings.books, s.admitted[e.admission].change.startDate,
        s.admitted[e.admission].change.endDate);
    } else {
      SameDatesSameOverlap(was, now);
    }
  }

  /** Over any run periods stay apart if and only if every period was written while its check still held. */
  lemma {:induction false} PeriodsStayApartWhen(crm: CustomerMerge.Crm, events: seq<Event>)
    ensures NoOverlap(Run(Initial(crm), events).holdings.books.periods) <==> ClearRun(Initial(crm), events)
  {
    hide Next, Clear;
    if events != [] {
      PeriodsStayApartWhen(crm, events[..|events| - 1]);
      NextPeriods(Run(Initial(crm), events[..|events| - 1]), events[|events| - 1]);
    }
  }

  /** In such a run the period that findPostablePeriod may return for a date is the only one covering it. */
  lemma OnePeriodPerDate(crm: CustomerMerge.Crm, events: seq<Event>, i: nat, date: Time)
    requires ClearRun(Initial(crm), events)
    ensures var periods := Run(Initial(crm), events).holdings.books.periods;
            i < |periods| && periods[i].startDate <= date <= periods[i].endDate ==>
              FindPostablePeriod(periods, date) == Some(periods[i])
  {
    PeriodsStayApartWhen(crm, events);
    var periods := Run(Initial(crm), events).holdings.books.periods;
    if i < |periods| && periods[i].startDate <= date <= periods[i].endDate {
      TheCoveringPeriod(periods, i, date);
    }
  }

  lemma {:induction false} TheCoveringPeriod(periods: seq<Period>, i: nat, date: Time)
    requires NoOverlap(periods) && i < |periods| && periods[i].startDate <= date <= periods[i].endDate
    ensures FindPostablePeriod(periods, date) == Some(periods[i])
  {
    if i > 0 {
      assert !Overlap(periods[0], periods[i].startDate, periods[i].endDate);
      TheCoveringPeriod(periods[1..], i - 1, date);
    }
  }
}
