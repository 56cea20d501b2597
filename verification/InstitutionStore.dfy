/** The database as it is updated in place: posting, cash and approval handlers as the statements they execute. */
module InstitutionStore {
  import opened Wrappers
  import opened Calendar
  import opened GeneralLedger
  import opened AccountingEntries
  import opened LedgerBooks
  import opened CashDesk
  import opened Handlers
  import opened Approvals
  import opened Institution
  import opened Effects
  import CustomerMerge

  /** How a transfer record ends. */
  datatype TransferStatus = COMPLETED | REJECTED

  datatype Outcome = RESOLVED | ALREADY_RESOLVED | ROLLED_BACK

  class Store {
    var accounts: seq<Account>
    var journals: seq<Journal>
    ghost var applied: seq<nat>
    var periods: seq<Period>
    var holders: seq<Holder>
    var entries: seq<CashEntry>
    var crm: CustomerMerge.Crm
    var requests: seq<Request>
    var admitted: seq<Work>
    var sessions: seq<Session>
    var readings: seq<Reading>
    var audit: seq<Evidence>

    ghost function TheBooks(): Books
      reads this
    {
      Books(accounts, journals, applied, periods)
    }

    ghost function TheHoldings(): Holdings
      reads this
    {
      Holdings(TheBooks(), Desk(holders, entries), crm)
    }

    ghost function TheState(): State
      reads this
    {
      State(TheHoldings(), requests, admitted, sessions, readings, audit)
    }

    constructor (customers: CustomerMerge.Crm)
      ensures TheState() == Initial(customers) && Inv(TheState())
    {
      hide Inv;
      accounts, journals, applied, periods, holders, entries, crm := [], [], [], [], [], [], customers;
      requests, admitted, sessions, readings, audit := [], [], [], [], [];
      new;
      InitialInv(customers);
    }

    // ---- postings -------------------------------------------------------

    /** for each line: balance: { increment: effect } */
    method IncrementBalances(lines: seq<Line>)
      requires OnAccounts(accounts, lines)
      modifies `accounts
      ensures accounts == ApplyLines(old(accounts), lines)
    {
      assert lines[..0] == [];
      for i := 0 to |lines|
        invariant accounts == ApplyLines(old(accounts), lines[..i])
      {
        var line := lines[i];
        assert lines[..i + 1][..i] == lines[..i];
        ApplyLinesAdds(old(accounts), lines[..i], line.account);
        var account := accounts[line.account];
        var effect := BalanceEffect(account.category, line.debit, line.credit);
        accounts := accounts[line.account := account.(balance := account.balance + effect)];
      }
      assert lines[..|lines|] == lines;
    }

    /** A journal created as POSTED, and its lines added to the balances. */
    method PostJournal(date: Time, lines: seq<Line>)
      requires Aligned(TheBooks()) && OnAccounts(accounts, lines)
      modifies `accounts, `journals, `applied
      ensures TheBooks() == PostNew(old(TheBooks()), date, lines)
    {
      journals := journals + [Journal(date, POSTED, lines)];
      applied := applied + [1];
      IncrementBalances(lines);
    }

    /**
      The whole handler, nobody coming between: a draft is stored only with good
      lines, an open period and existing accounts.
     */
    method CreateJournalDraft(date: Time, lines: seq<Line>) returns (created: bool)
      requires Inv(TheState())
      modifies `journals, `applied
      ensures Inv(TheState())
      ensures TheHoldings() == Direct(old(TheHoldings()), CREATE_JOURNAL(date, lines))
      ensures Does(old(TheHoldings()), CREATE_JOURNAL(date, lines), TheHoldings())
      ensures created <==> old(GoodDraft(lines) && PeriodOpen(TheBooks(), date) && OnAccounts(accounts, lines))
      ensures journals == if created then old(journals) + [Journal(date, DRAFT, lines)] else old(journals)
    {
      DirectStepKeeps(TheState(), CREATE_JOURNAL(date, lines));
      DirectMeans(TheHoldings(), CREATE_JOURNAL(date, lines));
      hide Inv, Does;
      var period := FindPostablePeriod(periods, date);
      created := GoodDraft(lines) && period.Some? && period.value.status == OPEN && OnAccounts(accounts, lines);
      if created {
        journals := journals + [Journal(date, DRAFT, lines)];
        applied := applied + [0];
      }
    }

    /** request-posting, its read: only a draft passes. */
    method ReadJournalDraft(j: nat, user: User) returns (admitted: bool)
      requires Inv(TheState())
      modifies `readings
      ensures Inv(TheState())
      ensures admitted <==> j < |journals| && journals[j].status == DRAFT
      ensures readings == if admitted then old(readings) + [Reading(j, user)] else old(readings)
    {
      ghost var was := TheState();
      NextKeeps(was, READ_DRAFT(j, user));
      hide Inv;
      if j >= |journals| || journals[j].status != DRAFT {
        assert TheState() == ReadDraft(was, j, user);
        return false;
      }
      readings := readings + [Reading(j, user)];
      assert TheState() == ReadDraft(was, j, user);
      return true;
    }

    /** request-posting, its write: the request, then the status, without looking again. */
    method WritePostingRequest(i: nat)
      requires Inv(TheState()) && i < |readings| && readings[i].journal < |journals|
      modifies `requests, `journals
      ensures Inv(TheState())
      ensures TheState() == SubmitPosting(old(TheState()), i)
    {
      NextKeeps(TheState(), SUBMIT_POSTING(i));
      hide Inv;
      var j := readings[i].journal;
      requests := requests + [Request(JOURNAL_POSTING(j), readings[i].user, PENDING, None)];
      journals := journals[j := journals[j].(status := PENDING_APPROVAL)];
    }

    /**
      request-posting as a whole, nobody coming between: a draft is sent for approval,
      and the queue stays in order.
     */
    method RequestPosting(j: nat, user: User) returns (requested: bool)
      requires Inv(TheState())
      modifies `readings, `requests, `journals
      ensures Inv(TheState()) && (old(Clean(TheState())) ==> Clean(TheState()))
      ensures requested <==> j < |old(journals)| && old(journals)[j].status == DRAFT
      ensures requests == old(requests) + if requested then [Request(JOURNAL_POSTING(j), user, PENDING, None)] else []
      ensures journals == if requested then old(journals)[j := old(journals)[j].(status := PENDING_APPROVAL)]
              else old(journals)
    {
      ReadThenSubmit(TheState(), j, user);
      hide Inv, Clean, SubmitPosting, ReadDraft;
      requested := ReadJournalDraft(j, user);
      if requested {
        WritePostingRequest(|readings| - 1);
      }
    }

    /** One due recurring journal: posted only with active accounts, balance and an open period. */
    method ExecuteRecurringJournal(dueDate: Time, template: seq<Line>) returns (executed: bool)
      requires Inv(TheState())
      modifies `accounts, `journals, `applied
      ensures Inv(TheState())
      ensures TheHoldings() == Direct(old(TheHoldings()), RUN_RECURRING_JOURNAL(dueDate, template))
      ensures Does(old(TheHoldings()), RUN_RECURRING_JOURNAL(dueDate, template), TheHoldings())
      ensures executed <==>
              old(&& OnAccounts(accounts, template) && AllActive(accounts, template)
                  && IsBalanced(template) && PeriodOpen(TheBooks(), dueDate))
      ensures journals == if executed then old(journals) + [Journal(dueDate, POSTED, template)] else old(journals)
    {
      DirectStepKeeps(TheState(), RUN_RECURRING_JOURNAL(dueDate, template));
      DirectMeans(TheHoldings(), RUN_RECURRING_JOURNAL(dueDate, template));
      DirectRecurring(TheHoldings(), dueDate, template);
      hide Inv, Does, Direct, IsBalanced, OnAccounts, AllActive, PostNew;
      var allActive := OnAccounts(accounts, template) && AllActive(accounts, template);
      var stillBalanced := IsBalanced(template);
      var period := FindPostablePeriod(periods, dueDate);
      var periodOpen := period.Some? && period.value.status == OPEN;
      if !allActive || !stillBalanced || !periodOpen {
        return false;
      }
      PostJournal(dueDate, template);
      return true;
    }

    // ---- cash -----------------------------------------------------------

    /** updateMany where balance >= amount, decrement: the number of rows changed says whether it was covered. */
    method GuardedDecrement(h: nat, amount: int) returns (count: nat)
      modifies `holders
      ensures count == if old(Covers(Desk(holders, entries), h, amount)) then 1 else 0
      ensures holders == if count == 1
                         then old(holders)[h := old(holders)[h].(balance := old(holders)[h].balance - amount)]
                         else old(holders)
    {
      if h < |holders| && holders[h].balance >= amount {
        holders := holders[h := holders[h].(balance := holders[h].balance - amount)];
        return 1;
      }
      return 0;
    }

    method AddEntry(h: nat, t: EntryType, amount: int)
      requires h < |holders|
      modifies `entries
      ensures entries == old(entries) + [CashEntry(h, t, amount, holders[h].balance)]
    {
      entries := entries + [CashEntry(h, t, amount, holders[h].balance)];
    }

    /** Everything but ledger and cash as it was. */
    twostate predicate OnlyHoldings()
      reads this
    {
      && crm == old(crm) && periods == old(periods) && requests == old(requests) && admitted == old(admitted)
      && sessions == old(sessions) && readings == old(readings) && audit == old(audit)
    }

    /** The transaction that vault entries and disbursements share: vault, cash ledger and journal, or nothing. */
    method MoveCash(date: Time, lines: seq<Line>, vault: nat, t: EntryType, amount: int) returns (done: bool)
      requires Aligned(TheBooks()) && OnAccounts(accounts, lines) && vault < |holders|
               && t in {RECEIPT, WITHDRAWAL, TRANSFER_OUT}
      modifies `accounts, `journals, `applied, `holders, `entries
      ensures TheHoldings() == MoveAndPost(old(TheHoldings()), date, lines, vault, t, amount)
      ensures done <==> t == RECEIPT || old(holders[vault].balance) >= amount
      ensures !done ==> TheHoldings() == old(TheHoldings())
      ensures done ==> |entries| == |old(entries)| + 1
    {
      hide Total, ApplyLines;
      if t == RECEIPT {
        holders := holders[vault := holders[vault].(balance := holders[vault].balance + amount)];
      } else {
        var count := GuardedDecrement(vault, amount);
        if count == 0 {
          return false;
        }
      }
      AddEntry(vault, t, amount);
      PostJournal(date, lines);
      return true;
    }

    /** The checks before it. */
    method MayMoveCash(date: Time, lines: seq<Line>, vault: nat) returns (ok: bool)
      ensures ok <==> OpenVault(Desk(holders, entries), vault) && CanPost(TheBooks(), date, lines)
    {
      hide IsBalanced;
      var period := FindPostablePeriod(periods, date);
      ok := vault < |holders| && holders[vault].kind == VAULT && holders[vault].open && period.Some?
        && period.value.status == OPEN
            && OnAccounts(accounts, lines) && IsBalanced(lines);
    }

    /** Checks and transaction one after the other. */
    method CheckAndMove(date: Time, lines: seq<Line>, vault: nat, t: EntryType, amount: int) returns (done: bool)
      requires Aligned(TheBooks()) && t in {RECEIPT, WITHDRAWAL, TRANSFER_OUT}
      modifies `accounts, `journals, `applied, `holders, `entries
      ensures TheHoldings() == Movement(old(TheHoldings()), date, lines, vault, t, amount)
      ensures done ==> |entries| == |old(entries)| + 1
      ensures !done ==> TheHoldings() == old(TheHoldings())
    {
      hide IsBalanced, OnAccounts, MoveAndPost, OpenVault, CanPost;
      done := MayMoveCash(date, lines, vault);
      if done {
        CanPostParts(TheHoldings(), date, lines, vault);
        done := MoveCash(date, lines, vault, t, amount);
      }
    }

    /** A receipt or withdrawal of cash at a vault, with its journal. */
    method PostVaultEntry(date: Time, vaultCash: nat, bank: nat, vault: nat, t: EntryType, amount: int)
        returns (recorded: bool)
      requires Inv(TheState()) && t in {RECEIPT, WITHDRAWAL}
      modifies this
      ensures Inv(TheState()) && OnlyHoldings()
      ensures TheHoldings() == Direct(old(TheHoldings()), RECORD_VAULT_ENTRY(date, vaultCash, bank, vault, t, amount))
      ensures Does(old(TheHoldings()), RECORD_VAULT_ENTRY(date, vaultCash, bank, vault, t, amount), TheHoldings())
      ensures recorded ==> |entries| == |old(entries)| + 1
      ensures !recorded ==> TheState() == old(TheState())
    {
      DirectStepKeeps(TheState(), RECORD_VAULT_ENTRY(date, vaultCash, bank, vault, t, amount));
      DirectMeans(TheHoldings(), RECORD_VAULT_ENTRY(date, vaultCash, bank, vault, t, amount));
      DirectVaultEntry(TheHoldings(), date, vaultCash, bank, vault, t, amount);
      hide Inv, Does, Direct, Movement, VaultLines;
      recorded := CheckAndMove(date, VaultLines(vaultCash, bank, t, amount), vault, t, amount);
    }

    /** The cash and ledger half of a disbursement. */
    method DisburseLoan(date: Time, receivable: nat, cash: nat, vault: nat, principal: int) returns (disbursed: bool)
      requires Inv(TheState())
      modifies this
      ensures Inv(TheState()) && OnlyHoldings()
      ensures TheHoldings() == Direct(old(TheHoldings()), DISBURSE(date, receivable, cash, vault, principal))
      ensures Does(old(TheHoldings()), DISBURSE(date, receivable, cash, vault, principal), TheHoldings())
      ensures disbursed ==> |entries| == |old(entries)| + 1
      ensures !disbursed ==> TheState() == old(TheState())
    {
      DirectStepKeeps(TheState(), DISBURSE(date, receivable, cash, vault, principal));
      DirectMeans(TheHoldings(), DISBURSE(date, receivable, cash, vault, principal));
      DirectDisbursement(TheHoldings(), date, receivable, cash, vault, principal);
      hide Inv, Does, Direct, Movement, TwoLines;
      disbursed := CheckAndMove(date, TwoLines(receivable, cash, principal), vault, TRANSFER_OUT, principal);
    }

    // ---- applyApproval ----------------------------------------------------

    /** update: the row must be there, or the transaction fails. */
    method ApplyDelta(h: nat, delta: int) returns (found: bool)
      modifies `holders
      ensures found <==> h < |old(holders)|
      ensures holders == if found then old(holders)[h := old(holders)[h].(balance := old(holders)[h].balance + delta)]
              else old(holders)
    {
      found := h < |holders|;
      if found {
        holders := holders[h := holders[h].(balance := holders[h].balance + delta)];
      }
    }

    /** Both sides of a transfer. When the destination is missing this fails with the source already debited. */
    method ApplyCashTransfer(from: nat, to: nat, amount: int) returns (ok: bool, status: TransferStatus)
      modifies `holders, `entries
      ensures var r := ApplyTransfer(old(Desk(holders, entries)), from, to, amount);
              (ok <==> r.Some?) && (ok ==> Desk(holders, entries) == r.value)
      ensures ok ==> |entries| == |old(entries)| + if status == COMPLETED then 2 else 0
      ensures ok ==> (status == COMPLETED <==> old(Covers(Desk(holders, entries), from, amount)))
      ensures ok && status == COMPLETED && from != to ==>
              Transferred(old(Desk(holders, entries)), Desk(holders, entries), from, to, amount)
    {
      status := TransferStatus.REJECTED;
      if from >= |holders| {
        return false, status;
      }
      var sourceBalance := holders[from].balance;
      if sourceBalance < amount {
        return true, status;
      }
      ok := ApplyDelta(from, -amount);
      var newSourceBalance := holders[from].balance;
      ok := ApplyDelta(to, amount);
      if !ok {
        return false, status;
      }
      var newDestBalance := holders[to].balance;
      entries := entries + [CashEntry(from, TRANSFER_OUT, amount, newSourceBalance)]
        + [CashEntry(to, TRANSFER_IN, amount, newDestBalance)];
      assert entries == old(entries)
             + [CashEntry(from, TRANSFER_OUT, amount, newSourceBalance),
                CashEntry(to, TRANSFER_IN, amount, newDestBalance)];
      status := COMPLETED;
    }

    method ApplyJournalPosting(j: nat) returns (ok: bool)
      requires Aligned(TheBooks())
      modifies `accounts, `journals, `applied
      ensures ok <==> j < |old(journals)|
      ensures TheBooks() == if ok then PostExisting(old(TheBooks()), j) else old(TheBooks())
    {
      hide Total, ApplyLines;
      if j >= |journals| {
        return false;
      }
      var lines := journals[j].lines;
      var stillBalanced := IsBalanced(lines);
      var allActive := OnAccounts(accounts, lines) && AllActive(accounts, lines);
      var period := FindPostablePeriod(periods, journals[j].postingDate);
      var periodStillOpen := period.Some? && period.value.status == OPEN;
      if !stillBalanced || !allActive || !periodStillOpen {
        journals := journals[j := journals[j].(status := JournalStatus.REJECTED)];
        return true;
      }
      IncrementBalances(lines);
      journals := journals[j := journals[j].(status := POSTED)];
      applied := applied[j := applied[j] + 1];
      return true;
    }

    method ApplyInterBranch(date: Time, lines: seq<Line>) returns (ok: bool)
      requires Aligned(TheBooks())
      modifies `accounts, `journals, `applied
      ensures var r := PostInterBranch(old(TheBooks()), date, lines);
              (ok <==> r.Some?) && (ok ==> TheBooks() == r.value)
    {
      if !OnAccounts(accounts, lines) {
        return false;
      }
      if IsBalanced(lines) {
        PostJournal(date, lines);
      }
      return true;
    }

    /** Payroll accruals and asset disposals. */
    method ApplyAccrual(date: Time, lines: seq<Line>) returns (ok: bool)
      requires Aligned(TheBooks())
      modifies `accounts, `journals, `applied
      ensures var r := Accrue(old(TheBooks()), date, lines); (ok <==> r.Some?) && (ok ==> TheBooks() == r.value)
    {
      var period := FindPostablePeriod(periods, date);
      if period.Some? && period.value.status == OPEN {
        if IsBalanced(lines) {
          if !OnAccounts(accounts, lines) {
            return false;
          }
          PostJournal(date, lines);
        }
      }
      return true;
    }

    /** The switch over request types. On failure the state may be half changed; the transaction restores it. */
    method ApplyApproval(k: Kind, env: Env) returns (ok: bool)
      requires Aligned(TheBooks())
      modifies this
      ensures var r := Apply(old(TheHoldings()), k, env); (ok <==> r.Some?) && (ok ==> TheHoldings() == r.value)
      ensures WellStated(k, env) ==> (ok <==> !Impossible(old(TheHoldings()), k, env))
      ensures WellStated(k, env) && ok ==> Approved(old(TheHoldings()), k, env, TheHoldings())
      ensures requests == old(requests) && admitted == old(admitted) && sessions == old(sessions)
              && readings == old(readings) && audit == old(audit)
    {
      if WellStated(k, env) {
        ApplyMeans(TheHoldings(), k, env);
        ApplyFailsWhen(TheHoldings(), k, env);
      }
      hide WellStated, Impossible, Approved;
      ok := SwitchOnType(k, env);
    }

    /** Its body. */
    method SwitchOnType(k: Kind, env: Env) returns (ok: bool)
      requires Aligned(TheBooks())
      modifies this
      ensures var r := Apply(old(TheHoldings()), k, env); (ok <==> r.Some?) && (ok ==> TheHoldings() == r.value)
      ensures requests == old(requests) && admitted == old(admitted) && sessions == old(sessions)
              && readings == old(readings) && audit == old(audit)
    {
      hide Accrue, PostInterBranch, PostExisting, ApplyTransfer;
      match k {
        case CASH_TRANSFER(from, to, amount) =>
          var status;
          ok, status := ApplyCashTransfer(from, to, amount);
        case JOURNAL_POSTING(j) =>
          ok := ApplyJournalPosting(j);
        case FINANCIAL_PERIOD_REOPEN(p) =>
          ok := p < |periods|;
          if ok {
            assert periods[p].status == OPEN || periods[p].status == CLOSED || periods[p].status == LOCKED;
            periods := periods[p := periods[p].(status := OPEN)];
          }
        case INTER_BRANCH_TRANSFER(fromAccount, toAccount, moved) =>
          ok := false;
          if env.fromSettlement.Some? && env.toSettlement.Some? {
            ok := ApplyInterBranch(env.now,
              InterBranchLines(env.fromSettlement.value, fromAccount, toAccount, env.toSettlement.value, moved));
          }
        case PAYROLL_RUN_APPROVAL(totals) =>
          ok := true;
          if env.payroll.Some? {
            var postingDate := if env.payrollEnd.Some? then env.payrollEnd.value else env.now;
            ok := ApplyAccrual(postingDate, BuildPayrollAccrualLines(totals, env.payroll.value));
          }
        case ASSET_DISPOSAL(cost, proceeds) =>
          ok := true;
          if env.disposal.Some? {
            ok := ApplyAccrual(env.now, BuildAssetDisposalLines(cost, env.accumulated, proceeds, env.disposal.value));
          }
        case CUSTOMER_MERGE(primary, merged) =>
          ok := primary < |crm.customers| && merged < |crm.customers|;
          if ok {
            crm := CustomerMerge.Execute(crm, primary, merged);
          }
        case OTHER =>
          ok := true;
      }
    }

    // ---- the two handlers -------------------------------------------------

    /** The check made outside the transaction: another user's view of a PENDING request. */
    method ReadRequest(r: nat, user: User, decision: Decision) returns (admitted: bool)
      requires Inv(TheState())
      modifies `sessions
      ensures Inv(TheState())
      ensures admitted <==> r < |requests| && requests[r].status == PENDING && requests[r].requestedBy != user
      ensures sessions == if admitted then old(sessions) + [Session(r, user, decision)] else old(sessions)
    {
      ghost var was := TheState();
      NextKeeps(was, READ_REQUEST(r, user, decision));
      hide Inv;
      if r >= |requests| || requests[r].status != PENDING || requests[r].requestedBy == user {
        assert TheState() == Open(was, r, user, decision);
        return false;
      }
      sessions := sessions + [Session(r, user, decision)];
      assert TheState() == Open(was, r, user, decision);
      return true;
    }

    /** A resolution as a whole: books, cash and requests stay in order, and no cash is made or lost. */
    method CommitResolution(i: nat, env: Env) returns (outcome: Outcome)
      requires Inv(TheState()) && i < |sessions|
      modifies this
      ensures Inv(TheState())
      ensures TheState() == Commit(old(TheState()), i, env)
      ensures TotalCash(holders) == old(TotalCash(holders))
      ensures outcome != RESOLVED ==> TheState() == old(TheState())
      ensures outcome == RESOLVED ==> |audit| == |old(audit)| + 1
      ensures outcome == ALREADY_RESOLVED <==> !Claimable(old(requests), old(sessions)[i])
      ensures WellStatedRequest(old(TheState()), old(sessions)[i], env) ==>
              Resolution(old(TheState()), old(sessions)[i], env, TheState())
    {
      CommitKeeps(TheState(), i, env);
      if WellStatedRequest(TheState(), sessions[i], env) {
        CommitMeans(TheState(), i, env);
      }
      hide Inv, TotalCash, Commit, Aligned, Claimable, WellStatedRequest, Resolution;
      outcome := Resolve(i, env);
    }

    /** The effect of a decision; a rejection only reopens its journal. */
    method Take(decision: Decision, k: Kind, env: Env) returns (ok: bool)
      requires Aligned(TheBooks())
      modifies this
      ensures var r := if decision == Approve then Apply(old(TheHoldings()), k, env) else Undo(old(TheHoldings()), k);
              (ok <==> r.Some?) && (ok ==> TheHoldings() == r.value)
      ensures requests == old(requests) && admitted == old(admitted) && sessions == old(sessions)
              && readings == old(readings) && audit == old(audit)
    {
      hide Apply;
      ok := true;
      if decision == Approve {
        ok := ApplyApproval(k, env);
      } else if k.JOURNAL_POSTING? {
        var j := k.journal;
        ok := j < |journals|;
        if ok {
          journals := journals[j := journals[j].(status := DRAFT)];
        }
      }
    }

    /** updateMany where the request is still PENDING: at most one resolver gets past it. */
    method Claim(x: Session) returns (count: nat)
      modifies `requests
      ensures count == if old(Claimable(requests, x)) then 1 else 0
      ensures requests == if count == 1 then old(requests)[x.request := Resolved(old(requests)[x.request], x)]
              else old(requests)
    {
      if x.request >= |requests| || requests[x.request].status != PENDING {
        return 0;
      }
      var existing := requests[x.request];
      requests := requests[x.request := existing.(
        status := if x.decision == Approve then APPROVED else RequestStatus.REJECTED, resolvedBy := Some(x.user))];
      return 1;
    }

    /** A transaction that failed leaves no trace. */
    method RollBack(saved: Snapshot, ghost savedApplied: seq<nat>)
      modifies this
      ensures var books := Books(saved.accounts, saved.journals, savedApplied, saved.periods);
              TheHoldings() == Holdings(books, Desk(saved.holders, saved.entries), saved.crm)
      ensures requests == saved.requests
      ensures admitted == old(admitted) && sessions == old(sessions) && readings == old(readings) && audit == old(audit)
    {
      accounts, journals, periods, holders, entries := saved.accounts, saved.journals, saved.periods, saved.holders,
        saved.entries;
      crm, requests, applied := saved.crm, saved.requests, savedApplied;
    }

    /** Its transaction: claim while PENDING, then the effect, then the evidence; on failure everything is put back. */
    method Resolve(i: nat, env: Env) returns (outcome: Outcome)
      requires Aligned(TheBooks()) && i < |sessions|
      modifies this
      ensures TheState() == Commit(old(TheState()), i, env)
      ensures outcome != RESOLVED ==> TheState() == old(TheState())
      ensures outcome == RESOLVED ==> |audit| == |old(audit)| + 1
      ensures outcome == ALREADY_RESOLVED <==> !Claimable(old(requests), old(sessions)[i])
    {
      var x := sessions[i];
      CommitSteps(TheState(), i, env);
      hide Commit, Apply, Undo, Resolved, Aligned;
      var saved := Snapshot(accounts, journals, periods, holders, entries, crm, requests);
      ghost var savedApplied := applied;
      var count := Claim(x);
      if count == 0 {
        return ALREADY_RESOLVED;
      }
      var ok := Take(x.decision, saved.requests[x.request].kind, env);
      if ok {
        audit := audit + [Evidence(x.request, x.user, x.decision)];
        return RESOLVED;
      }
      RollBack(saved, savedApplied);
      return ROLLED_BACK;
    }
  }

  /** The change is made exactly when its handler may make it. */
  ghost predicate Does(before: Holdings, c: Change, after: Holdings) {
    if Admissible(before, c) then Changes(before, c, after) else after == before
  }

  /** What a failed transaction goes back to. */
  datatype Snapshot = Snapshot(
    accounts: seq<Account>, journals: seq<Journal>, periods: seq<Period>, holders: seq<Holder>, entries: seq<CashEntry>,
    crm: CustomerMerge.Crm, requests: seq<Request>)

  predicate Claimable(requests: seq<Request>, x: Session) {
    x.request < |requests| && requests[x.request].status == PENDING
  }

  lemma CommitKeeps(s: State, i: nat, env: Env)
    requires Inv(s)
    ensures Aligned(s.holdings.books)
    ensures Inv(Commit(s, i, env))
            && TotalCash(Commit(s, i, env).holdings.desk.holders) == TotalCash(s.holdings.desk.holders)
  {
    assert Aligned(s.holdings.books);
    hide HoldingsInv, ApprovalInv, Commit, TotalCash;
    CommitKeepsHoldings(s, i, env);
    CommitKeepsApprovals(s, i, env);
    CommitTotal(s, i, env);
  }

  /** A draft that was read a moment ago is nobody else's to post. */
  lemma ReadThenSubmit(s: State, j: nat, user: User)
    requires Inv(s)
    ensures Aligned(s.holdings.books)
    ensures j < |s.holdings.books.journals| && s.holdings.books.journals[j].status == DRAFT ==>
              var read := s.(readings := s.readings + [Reading(j, user)]);
              Clean(s) ==> Clean(SubmitPosting(read, |s.readings|))
  {
    assert Aligned(s.holdings.books);
    hide Inv, PostedOnce;
    if j < |s.holdings.books.journals| && s.holdings.books.journals[j].status == DRAFT && Clean(s) {
      SubmitPostingIsCleanWhen(s.(readings := s.readings + [Reading(j, user)]), |s.readings|);
    }
  }

  lemma CommitSteps(s: State, i: nat, env: Env)
    requires Aligned(s.holdings.books) && i < |s.sessions|
    ensures var x := s.sessions[i];
            if !Claimable(s.requests, x) then Commit(s, i, env) == s
            else
              var q := s.requests[x.request];
              var h := if x.decision == Approve then Apply(s.holdings, q.kind, env) else Undo(s.holdings, q.kind);
              Commit(s, i, env)
              == if h.None? then s
                 else State(h.value, s.requests[x.request := Resolved(q, x)], s.admitted, s.sessions, s.readings,
                            s.audit + [Evidence(x.request, x.user, x.decision)])
  {
    hide Apply, Undo, Resolved;
  }

  function Movement(h: Holdings, date: Time, lines: seq<Line>, vault: nat, t: EntryType, amount: int): (r: Holdings)
    requires Aligned(h.books)
  {
    if OpenVault(h.desk, vault) && CanPost(h.books, date, lines) then MoveAndPost(h, date, lines, vault, t, amount)
    else h
  }

  lemma DirectRecurring(h: Holdings, dueDate: Time, template: seq<Line>)
    requires Aligned(h.books)
    ensures Direct(h, RUN_RECURRING_JOURNAL(dueDate, template))
         == if OnAccounts(h.books.accounts, template) && AllActive(h.books.accounts, template) && IsBalanced(template)
           && PeriodOpen(h.books, dueDate)
            then h.(books := PostNew(h.books, dueDate, template))
            else h
  {
    hide OnAccounts, AllActive, IsBalanced, PeriodOpen, PostNew;
  }

  lemma DirectVaultEntry(h: Holdings, date: Time, vaultCash: nat, bank: nat, vault: nat, t: EntryType, amount: int)
    requires Aligned(h.books) && t in {RECEIPT, WITHDRAWAL}
    ensures Direct(h, RECORD_VAULT_ENTRY(date, vaultCash, bank, vault, t, amount))
         == Movement(h, date, VaultLines(vaultCash, bank, t, amount), vault, t, amount)
  {
    hide OpenVault, CanPost, MoveAndPost, VaultLines;
  }

  lemma DirectDisbursement(h: Holdings, date: Time, receivable: nat, cash: nat, vault: nat, principal: int)
    requires Aligned(h.books)
    ensures Direct(h, DISBURSE(date, receivable, cash, vault, principal))
         == Movement(h, date, TwoLines(receivable, cash, principal), vault, TRANSFER_OUT, principal)
  {
    hide OpenVault, CanPost, MoveAndPost, TwoLines;
  }

  lemma CanPostParts(h: Holdings, date: Time, lines: seq<Line>, vault: nat)
    requires OpenVault(h.desk, vault) && CanPost(h.books, date, lines)
    ensures vault < |h.desk.holders| && OnAccounts(h.books.accounts, lines)
  {
  }
}
