/**
  Requests that wait for a second user. An approver or rejecter first reads
  the request outside any transaction; later the transaction claims it
  (only while it is still PENDING), applies its effect and writes the audit
  evidence, all or nothing. Any number of users may be in between the two.
 */
module Approvals {
  import opened Wrappers
  import opened Calendar
  import opened GeneralLedger
  import opened AccountingEntries
  import opened LedgerBooks
  import opened CashDesk
  import opened Handlers
  import CustomerMerge

  type User = nat

  datatype Kind =
    | CASH_TRANSFER(from: nat, to: nat, amount: int)
    | JOURNAL_POSTING(journal: nat)
    | FINANCIAL_PERIOD_REOPEN(period: nat)
    | INTER_BRANCH_TRANSFER(fromAccount: nat, toAccount: nat, moved: int)
    | PAYROLL_RUN_APPROVAL(totals: PayrollTotals)
    | ASSET_DISPOSAL(cost: int, proceeds: int)
    | CUSTOMER_MERGE(primary: nat, merged: nat)
    | OTHER

  datatype RequestStatus = PENDING | APPROVED | REJECTED

  datatype Request = Request(kind: Kind, requestedBy: User, status: RequestStatus, resolvedBy: Option<User>)

  datatype Decision = Approve | Reject

  /** A handler that has read a request, found it PENDING and not its user's own, and has not claimed it yet. */
  datatype Session = Session(request: nat, user: User, decision: Decision)

  datatype Evidence = Evidence(request: nat, user: User, decision: Decision)

  /** A request-posting handler that has read a journal as DRAFT. */
  datatype Reading = Reading(journal: nat, user: User)

  /** A direct change, or a request that a route files. */
  datatype Work = CHANGE(change: Change) | REQUEST(kind: Kind, requester: User)

  /** Besides the tables: the handlers that have checked and not written yet, by what they hold. */
  datatype State = State(
    holdings: Holdings, requests: seq<Request>, admitted: seq<Work>, sessions: seq<Session>, readings: seq<Reading>,
    audit: seq<Evidence>)

  /**
    What a transaction finds besides the holdings: the date, the settlement
    accounts of two branches, the accounts mapped for payroll and for
    disposals (an unmapped purpose names no row), a payroll period's end.
   */
  datatype Env = Env(
    now: Time, fromSettlement: Option<nat>, toSettlement: Option<nat>, payroll: Option<PayrollAccounts>,
    payrollEnd: Option<Time>,
    disposal: Option<DisposalAccounts>, accumulated: int)

  // ---- effects ----------------------------------------------------------

  /** The accruals: skipped without an open period or without balance, and failing on an account that is not there. */
  function Accrue(b: Books, date: Time, lines: seq<Line>): (r: Option<Books>)
    requires Aligned(b)
    ensures r.Some? ==> Aligned(r.value)
  {
    if !PeriodOpen(b, date) || !IsBalanced(lines) then Some(b)
    else if !OnAccounts(b.accounts, lines) then None
    else Some(PostNew(b, date, lines))
  }

  function InterBranchLines(
      fromSettlement: nat, fromAccount: nat, toAccount: nat, toSettlement: nat, amount: int): seq<Line>
  {
    [Line(fromSettlement, amount, 0), Line(fromAccount, 0, amount), Line(toAccount, amount, 0),
     Line(toSettlement, 0, amount)]
  }

  /** Posted without asking for an open period. */
  function PostInterBranch(b: Books, date: Time, lines: seq<Line>): (r: Option<Books>)
    requires Aligned(b)
    ensures r.Some? ==> Aligned(r.value)
  {
    if !OnAccounts(b.accounts, lines) then None
    else if !IsBalanced(lines) then Some(b)
    else Some(PostNew(b, date, lines))
  }

  function ApplyTransfer(d: Desk, from: nat, to: nat, amount: int): Option<Desk> {
    if from >= |d.holders| then None
    else if !Covers(d, from, amount) then Some(d)
    else if to >= |d.holders| then None
    else Some(Transfer(d, from, to, amount))
  }

  function ApplyToBooks(b: Books, k: Kind, env: Env): (r: Option<Books>)
    requires Aligned(b)
    ensures r.Some? ==> Aligned(r.value)
  {
    match k
    case JOURNAL_POSTING(j) => if j < |b.journals| then Some(PostExisting(b, j)) else None
    case FINANCIAL_PERIOD_REOPEN(p) => if p < |b.periods| then Some(SetPeriod(b, p, OPEN)) else None
    case INTER_BRANCH_TRANSFER(fromAccount, toAccount, moved) =>
      if env.fromSettlement.None? || env.toSettlement.None? then None
      else PostInterBranch(b, env.now,
        InterBranchLines(env.fromSettlement.value, fromAccount, toAccount, env.toSettlement.value, moved))
    case PAYROLL_RUN_APPROVAL(totals) =>
      if env.payroll.None? then Some(b)
      else Accrue(b, if env.payrollEnd.Some? then env.payrollEnd.value else env.now,
        BuildPayrollAccrualLines(totals, env.payroll.value))
    case ASSET_DISPOSAL(cost, proceeds) =>
      if env.disposal.None? then Some(b)
      else Accrue(b, env.now, BuildAssetDisposalLines(cost, env.accumulated, proceeds, env.disposal.value))
    case _ => Some(b)
  }

  function ApplyToDesk(d: Desk, k: Kind): Option<Desk> {
    match k
    case CASH_TRANSFER(from, to, amount) => ApplyTransfer(d, from, to, amount)
    case _ => Some(d)
  }

  function ApplyToCrm(c: CustomerMerge.Crm, k: Kind): Option<CustomerMerge.Crm> {
    match k
    case CUSTOMER_MERGE(primary, merged) =>
      if primary < |c.customers| && merged < |c.customers| then Some(CustomerMerge.Execute(c, primary, merged))
      else None
    case _ => Some(c)
  }

  /** applyApproval: None when it throws, so that the whole transaction rolls back. */
  function Apply(h: Holdings, k: Kind, env: Env): (r: Option<Holdings>)
    requires Aligned(h.books)
    ensures r.Some? ==> Aligned(r.value.books)
  {
    var b, d, c := ApplyToBooks(h.books, k, env), ApplyToDesk(h.desk, k), ApplyToCrm(h.crm, k);
    if b.Some? && d.Some? && c.Some? then Some(Holdings(b.value, d.value, c.value)) else None
  }

  /** The reject handler's side effect: a journal goes back to DRAFT. */
  function Undo(h: Holdings, k: Kind): (r: Option<Holdings>)
    requires Aligned(h.books)
    ensures r.Some? ==> Aligned(r.value.books)
  {
    match k
    case JOURNAL_POSTING(j) => if j < |h.books.journals| then Some(h.(books := SetJournal(h.books, j, DRAFT))) else None
    case _ => Some(h)
  }

  // ---- steps ------------------------------------------------------------

  /** What the routes that create requests check. Journal postings have their own route. */
  predicate MayRequest(h: Holdings, k: Kind) {
    match k
    case CASH_TRANSFER(from, to, amount) =>
      from != to && amount > 0 && to < |h.desk.holders| && Covers(h.desk, from, amount)
    case JOURNAL_POSTING(_) => false
    case FINANCIAL_PERIOD_REOPEN(p) => p < |h.books.periods| && h.books.periods[p].status == CLOSED
    case INTER_BRANCH_TRANSFER(_, _, moved) => moved > 0
    case CUSTOMER_MERGE(primary, merged) =>
      && primary != merged && primary < |h.crm.customers| && merged < |h.crm.customers|
      && h.crm.customers[primary].mergeStatus == CustomerMerge.ACTIVE
      && h.crm.customers[merged].mergeStatus == CustomerMerge.ACTIVE
    case _ => true
  }

  /** The checks of a handler, after which it holds its work. */
  function Admit(s: State, w: Work): State {
    if (match w case CHANGE(c) => Admits(s.holdings, c) case REQUEST(k, _) => MayRequest(s.holdings, k))
    then s.(admitted := s.admitted + [w])
    else s
  }

  /** The writes of a handler that was admitted, with no second look at what it checked. */
  function WriteOut(s: State, i: nat): (r: State)
    requires Aligned(s.holdings.books)
    ensures Aligned(r.holdings.books)
  {
    if i >= |s.admitted| then s
    else match s.admitted[i]
      case CHANGE(c) => s.(holdings := Perform(s.holdings, c))
      case REQUEST(k, user) => Submit(s, k, user)
  }

  function Submit(s: State, k: Kind, user: User): State {
    s.(requests := s.requests + [Request(k, user, PENDING, None)])
  }

  /** The read before the transaction. */
  function Open(s: State, r: nat, user: User, decision: Decision): State {
    if r < |s.requests| && s.requests[r].status == PENDING && s.requests[r].requestedBy != user
    then s.(sessions := s.sessions + [Session(r, user, decision)])
    else s
  }

  function Resolved(q: Request, x: Session): Request {
    q.(status := if x.decision == Approve then APPROVED else RequestStatus.REJECTED, resolvedBy := Some(x.user))
  }

  /** The transaction: guarded claim, effect, evidence. */
  function Commit(s: State, i: nat, env: Env): (r: State)
    requires Aligned(s.holdings.books)
    ensures Aligned(r.holdings.books)
  {
    if i >= |s.sessions| then s
    else
      var x := s.sessions[i];
      if x.request >= |s.requests| || s.requests[x.request].status != PENDING then s
      else
        var q := s.requests[x.request];
        var h := if x.decision == Approve then Apply(s.holdings, q.kind, env) else Undo(s.holdings, q.kind);
        if h.None? then s
        else s.(holdings := h.value, requests := s.requests[x.request := Resolved(q, x)],
                audit := s.audit + [Evidence(x.request, x.user, x.decision)])
  }

  /** The read of request-posting. */
  function ReadDraft(s: State, j: nat, user: User): State {
    if j < |s.holdings.books.journals| && s.holdings.books.journals[j].status == DRAFT
    then s.(readings := s.readings + [Reading(j, user)])
    else s
  }

  /** The write of request-posting, which does not look at the journal again. */
  function SubmitPosting(s: State, i: nat): (r: State)
    requires Aligned(s.holdings.books)
    ensures Aligned(r.holdings.books)
  {
    if i >= |s.readings| || s.readings[i].journal >= |s.holdings.books.journals| then s
    else
      var x := s.readings[i];
      Submit(s, JOURNAL_POSTING(x.journal), x.user)
      .(holdings := s.holdings.(books := SetJournal(s.holdings.books, x.journal, PENDING_APPROVAL)))
  }

  // ---- the approval invariant ---------------------------------------------

  /** What the transfer route checks of its input. */
  predicate WellFormed(k: Kind) {
    k.CASH_TRANSFER? ==> k.from != k.to && k.amount > 0
  }

  /** What stays true of admitted work however long it waits. */
  predicate SoundWork(w: Work) {
    match w
    case CHANGE(c) => Sound(c)
    case REQUEST(k, _) => WellFormed(k) && !k.JOURNAL_POSTING?
  }

  function EvidenceOf(audit: seq<Evidence>, r: nat): seq<Evidence> {
    if audit == [] then []
    else
      var e := audit[|audit| - 1];
      EvidenceOf(audit[..|audit| - 1], r) + if e.request == r then [e] else []
  }

  lemma EvidenceSnoc(audit: seq<Evidence>, e: Evidence, r: nat)
    ensures EvidenceOf(audit + [e], r) == EvidenceOf(audit, r) + if e.request == r then [e] else []
  {
    assert (audit + [e])[..|audit|] == audit;
  }

  lemma {:induction false} NoEvidence(audit: seq<Evidence>, r: nat)
    requires forall i :: 0 <= i < |audit| ==> audit[i].request < r
    ensures EvidenceOf(audit, r) == []
  {
    if audit != [] {
      NoEvidence(audit[..|audit| - 1], r);
    }
  }

  /**
    A request is either pending with no evidence, or resolved by someone else with
    exactly one piece of evidence saying so.
   */
  ghost predicate RequestInv(s: State, r: nat)
    requires r < |s.requests|
  {
    var q := s.requests[r];
    && WellFormed(q.kind)
    && match q.status
       case PENDING => q.resolvedBy == None && EvidenceOf(s.audit, r) == []
       case APPROVED =>
         && q.resolvedBy.Some? && q.resolvedBy.value != q.requestedBy
         && EvidenceOf(s.audit, r) == [Evidence(r, q.resolvedBy.value, Approve)]
       case REJECTED =>
         && q.resolvedBy.Some? && q.resolvedBy.value != q.requestedBy
         && EvidenceOf(s.audit, r) == [Evidence(r, q.resolvedBy.value, Reject)]
  }

  ghost predicate ApprovalInv(s: State) {
    && (forall r :: 0 <= r < |s.requests| ==> RequestInv(s, r))
    && (forall i :: 0 <= i < |s.sessions| ==>
          s.sessions[i].request < |s.requests| && s.sessions[i].user != s.requests[s.sessions[i].request].requestedBy)
    && (forall i :: 0 <= i < |s.audit| ==> s.audit[i].request < |s.requests|)
    && (forall i :: 0 <= i < |s.admitted| ==> SoundWork(s.admitted[i]))
  }

  lemma SubmitKeepsApprovals(s: State, k: Kind, user: User)
    requires ApprovalInv(s) && WellFormed(k)
    ensures ApprovalInv(Submit(s, k, user))
  {
    hide EvidenceOf;
    var t := Submit(s, k, user);
    forall r | 0 <= r < |t.requests|
      ensures RequestInv(t, r)
    {
      if r < |s.requests| {
        assert RequestInv(s, r);
      } else {
        NoEvidence(s.audit, r);
      }
    }
  }

  lemma OpenKeepsApprovals(s: State, r: nat, user: User, decision: Decision)
    requires ApprovalInv(s)
    ensures ApprovalInv(Open(s, r, user, decision))
  {
    hide EvidenceOf;
    var t := Open(s, r, user, decision);
    forall r | 0 <= r < |t.requests|
      ensures RequestInv(t, r)
    {
      assert RequestInv(s, r);
    }
  }

  lemma AdmitKeepsApprovals(s: State, w: Work)
    requires ApprovalInv(s)
    ensures ApprovalInv(Admit(s, w))
  {
    var t := Admit(s, w);
    if t != s {
      if w.CHANGE? {
        AdmittedIsSound(s.holdings, w.change);
      }
      assert SoundWork(w);
      hide EvidenceOf, SoundWork;
      forall r | 0 <= r < |t.requests|
        ensures RequestInv(t, r)
      {
        assert RequestInv(s, r);
      }
    }
  }

  /** Only the holdings differ. */
  lemma HoldingsDoNotMatter(s: State, t: State)
    requires ApprovalInv(s) && t.requests == s.requests && t.admitted == s.admitted && t.sessions == s.sessions
             && t.audit == s.audit
    ensures ApprovalInv(t)
  {
    forall r | 0 <= r < |t.requests|
      ensures RequestInv(t, r)
    {
      assert RequestInv(s, r);
    }
  }

  lemma CommitKeepsApprovals(s: State, i: nat, env: Env)
    requires ApprovalInv(s) && Aligned(s.holdings.books)
    ensures ApprovalInv(Commit(s, i, env))
  {
    hide EvidenceOf, Apply, Undo;
    var t := Commit(s, i, env);
    if t != s {
      var x := s.sessions[i];
      forall r | 0 <= r < |t.requests|
        ensures RequestInv(t, r)
      {
        assert RequestInv(s, r);
        EvidenceSnoc(s.audit, Evidence(x.request, x.user, x.decision), r);
      }
    }
  }

  // ---- holdings stay in order ---------------------------------------------

  lemma PostingKeeps(b: Books, date: Time, lines: seq<Line>)
    requires BooksInv(b)
    ensures Accrue(b, date, lines).Some? ==> BooksInv(Accrue(b, date, lines).value)
    ensures PostInterBranch(b, date, lines).Some? ==> BooksInv(PostInterBranch(b, date, lines).value)
    ensures PostedOnce(b) ==> (Accrue(b, date, lines).Some? ==> PostedOnce(Accrue(b, date, lines).value))
    ensures PostedOnce(b) ==>
            (PostInterBranch(b, date, lines).Some? ==> PostedOnce(PostInterBranch(b, date, lines).value))
  {
    if OnAccounts(b.accounts, lines) && IsBalanced(lines) {
      hide BooksInv, PostedOnce, PostNew;
      PostNewKeeps(b, date, lines);
    }
  }

  lemma ReopenKeeps(b: Books, p: nat)
    requires BooksInv(b) && p < |b.periods|
    ensures BooksInv(SetPeriod(b, p, OPEN))
    ensures PostedOnce(b) ==> PostedOnce(SetPeriod(b, p, OPEN))
  {
    PeriodsKeep(b, SetPeriod(b, p, OPEN));
  }

  lemma ApplyToBooksKeeps(b: Books, k: Kind, env: Env)
    requires BooksInv(b)
    ensures ApplyToBooks(b, k, env).Some? ==> BooksInv(ApplyToBooks(b, k, env).value)
    ensures ApplyToBooks(b, k, env).Some? && PostedOnce(b)
            && (k.JOURNAL_POSTING? ==> b.journals[k.journal].status != POSTED)
            ==> PostedOnce(ApplyToBooks(b, k, env).value)
  {
    assert Aligned(b);
    hide BooksInv, PostedOnce, Accrue, PostInterBranch, PostExisting, SetPeriod;
    match k {
      case JOURNAL_POSTING(j) => if j < |b.journals| { PostExistingKeeps(b, j); }
      case FINANCIAL_PERIOD_REOPEN(p) => if p < |b.periods| { ReopenKeeps(b, p); }
      case INTER_BRANCH_TRANSFER(fromAccount, toAccount, moved) =>
        if env.fromSettlement.Some? && env.toSettlement.Some? {
          PostingKeeps(b, env.now,
            InterBranchLines(env.fromSettlement.value, fromAccount, toAccount, env.toSettlement.value, moved));
        }
      case PAYROLL_RUN_APPROVAL(totals) =>
        if env.payroll.Some? {
          PostingKeeps(b, if env.payrollEnd.Some? then env.payrollEnd.value else env.now,
            BuildPayrollAccrualLines(totals, env.payroll.value));
        }
      case ASSET_DISPOSAL(cost, proceeds) =>
        if env.disposal.Some? {
          PostingKeeps(b, env.now, BuildAssetDisposalLines(cost, env.accumulated, proceeds, env.disposal.value));
        }
      case _ =>
    }
  }

  lemma ApplyKeeps(h: Holdings, k: Kind, env: Env)
    requires HoldingsInv(h) && WellFormed(k)
    ensures Apply(h, k, env).Some? ==> HoldingsInv(Apply(h, k, env).value)
  {
    assert Aligned(h.books);
    hide BooksInv, DeskInv, ApplyToBooks, Transfer;
    ApplyToBooksKeeps(h.books, k, env);
    if k.CASH_TRANSFER? && k.from < |h.desk.holders| && k.to < |h.desk.holders| {
      TransferKeeps(h.desk, k.from, k.to, k.amount);
    }
  }

  lemma UndoKeeps(h: Holdings, k: Kind)
    requires HoldingsInv(h)
    ensures Undo(h, k).Some? ==> HoldingsInv(Undo(h, k).value)
  {
    assert Aligned(h.books);
    hide BooksInv, DeskInv;
    if k.JOURNAL_POSTING? && k.journal < |h.books.journals| {
      SetJournalKeeps(h.books, k.journal, DRAFT);
    }
  }

  lemma CommitKeepsHoldings(s: State, i: nat, env: Env)
    requires HoldingsInv(s.holdings) && ApprovalInv(s)
    ensures HoldingsInv(Commit(s, i, env).holdings)
  {
    assert Aligned(s.holdings.books);
    hide HoldingsInv, Apply, Undo;
    if i < |s.sessions| {
      var k := s.requests[s.sessions[i].request].kind;
      assert RequestInv(s, s.sessions[i].request);
      ApplyKeeps(s.holdings, k, env);
      UndoKeeps(s.holdings, k);
    }
  }

  // ---- the posting queue --------------------------------------------------

  predicate Awaits(q: Request, j: nat) {
    q.status == PENDING && q.kind.JOURNAL_POSTING? && q.kind.journal == j
  }

  /** A pending posting request has its journal waiting, and has it to itself. */
  ghost predicate QueueInv(journals: seq<Journal>, requests: seq<Request>) {
    && (forall r :: 0 <= r < |requests| && requests[r].status == PENDING && requests[r].kind.JOURNAL_POSTING? ==>
          requests[r].kind.journal < |journals| && journals[requests[r].kind.journal].status == PENDING_APPROVAL)
    && (forall r, t :: 0 <= r < t < |requests| && requests[r].status == PENDING && requests[r].kind.JOURNAL_POSTING?
          ==> !Awaits(requests[t], requests[r].kind.journal))
  }

  ghost predicate Clean(s: State) {
    PostedOnce(s.holdings.books) && QueueInv(s.holdings.books.journals, s.requests)
  }

  lemma QueueGrows(journals: seq<Journal>, more: seq<Journal>, requests: seq<Request>)
    requires QueueInv(journals, requests) && journals <= more
    ensures QueueInv(more, requests)
  {
  }

  /** Resolving a request leaves the rest of the queue in order, whatever becomes of its own journal. */
  lemma QueueResolves(journals: seq<Journal>, more: seq<Journal>, requests: seq<Request>, r: nat, q: Request)
    requires QueueInv(journals, requests) && r < |requests| && requests[r].status == PENDING && q.status != PENDING
    requires |journals| <= |more|
    requires forall j :: 0 <= j < |journals| && !Awaits(requests[r], j) ==> more[j] == journals[j]
    ensures QueueInv(more, requests[r := q])
  {
  }

  lemma BooksChange(b: Books, k: Kind, env: Env)
    requires Aligned(b) && ApplyToBooks(b, k, env).Some?
    ensures var c := ApplyToBooks(b, k, env).value;
            |b.journals| <= |c.journals|
            && forall j :: 0 <= j < |b.journals| && !(k.JOURNAL_POSTING? && k.journal == j) ==>
               c.journals[j] == b.journals[j]
  {
    hide IsBalanced, OnAccounts, PeriodOpen, ApplyLines, BuildPayrollAccrualLines, BuildAssetDisposalLines;
  }

  lemma UndoKeepsClean(h: Holdings, k: Kind)
    requires BooksInv(h.books) && PostedOnce(h.books) && Undo(h, k).Some?
    requires k.JOURNAL_POSTING? && k.journal < |h.books.journals| ==>
             h.books.journals[k.journal].status == PENDING_APPROVAL
    ensures PostedOnce(Undo(h, k).value.books)
    ensures |Undo(h, k).value.books.journals| == |h.books.journals|
    ensures forall j :: 0 <= j < |h.books.journals| && !(k.JOURNAL_POSTING? && k.journal == j) ==>
            Undo(h, k).value.books.journals[j] == h.books.journals[j]
  {
  }

  /**
    While no stale request-posting write happens, commits keep every journal applied
    exactly as often as its status says.
   */
  lemma CommitKeepsClean(s: State, i: nat, env: Env)
    requires HoldingsInv(s.holdings) && Clean(s)
    ensures Clean(Commit(s, i, env))
  {
    var b := s.holdings.books;
    var t := Commit(s, i, env);
    if t != s {
      var x := s.sessions[i];
      var q := s.requests[x.request];
      assert q.kind.JOURNAL_POSTING? ==>
             q.kind.journal < |b.journals| && b.journals[q.kind.journal].status == PENDING_APPROVAL;
      assert BooksInv(b) && PostedOnce(b) && QueueInv(b.journals, s.requests);
      hide HoldingsInv, ApplyToBooks, BooksInv, QueueInv, PostedOnce, Undo, ApplyToDesk, ApplyToCrm;
      if x.decision == Approve {
        ApplyToBooksKeeps(b, q.kind, env);
        BooksChange(b, q.kind, env);
      } else {
        UndoKeepsClean(s.holdings, q.kind);
      }
      QueueResolves(b.journals, t.holdings.books.journals, s.requests, x.request, Resolved(q, x));
    }
  }

  /**
    When exactly the unchecked write of request-posting is harmless: its
    journal has not been posted, and no request is waiting for it.
   */
  lemma SubmitPostingIsCleanWhen(s: State, i: nat)
    requires Aligned(s.holdings.books) && Clean(s)
    requires i < |s.readings| && s.readings[i].journal < |s.holdings.books.journals|
    ensures var j := s.readings[i].journal;
            Clean(SubmitPosting(s, i))
            <==> && s.holdings.books.journals[j].status != POSTED
                 && forall r :: 0 <= r < |s.requests| ==> !Awaits(s.requests[r], j)
  {
    var j := s.readings[i].journal;
    var t := SubmitPosting(s, i);
    var n := |s.requests|;
    assert Awaits(t.requests[n], j);
    assert t.holdings.books.applied == s.holdings.books.applied;
    if s.holdings.books.journals[j].status == POSTED {
      assert t.holdings.books.journals[j].status != POSTED && t.holdings.books.applied[j] == 1;
    } else if r :| 0 <= r < n && Awaits(s.requests[r], j) {
      assert t.requests[r] == s.requests[r];
    }
  }
}
