/** Vaults and tellers, their balances, and the cash ledger that records every movement. */
module CashDesk {
  import opened Money

  datatype HolderKind = VAULT | TELLER

  /** A vault (balance) or a teller (current holding), with the value it started from. */
  datatype Holder = Holder(kind: HolderKind, opening: int, balance: int, open: bool)

  datatype EntryType = RECEIPT | WITHDRAWAL | TRANSFER_IN | TRANSFER_OUT

  datatype CashEntry = CashEntry(holder: nat, entryType: EntryType, amount: int, balanceAfter: int)

  datatype Desk = Desk(holders: seq<Holder>, entries: seq<CashEntry>)

  // ---- operations -------------------------------------------------------

  function Delta(e: CashEntry): int {
    if e.entryType in {RECEIPT, TRANSFER_IN} then e.amount else -e.amount
  }

  /** Change one balance and record it with the balance it left. */
  function Move(d: Desk, h: nat, t: EntryType, amount: int): Desk
    requires h < |d.holders|
  {
    var after := d.holders[h].balance + Delta(CashEntry(h, t, amount, 0));
    Desk(d.holders[h := d.holders[h].(balance := after)], d.entries + [CashEntry(h, t, amount, after)])
  }

  /** updateMany where balance >= amount: whether the guarded decrement of this holder goes through. */
  predicate Covers(d: Desk, h: nat, amount: int) {
    h < |d.holders| && d.holders[h].balance >= amount
  }

  /** Both sides of an approved transfer, the source re-checked. */
  function Transfer(d: Desk, from: nat, to: nat, amount: int): Desk
    requires from < |d.holders| && to < |d.holders|
  {
    if !Covers(d, from, amount) then d
    else
      var source := d.holders[from].(balance := d.holders[from].balance - amount);
      var afterOut := d.holders[from := source];
      var dest := afterOut[to].(balance := afterOut[to].balance + amount);
      Desk(afterOut[to := dest],
           d.entries + [CashEntry(from, TRANSFER_OUT, amount, source.balance),
             CashEntry(to, TRANSFER_IN, amount, dest.balance)])
  }

  function Register(d: Desk, kind: HolderKind): Desk {
    d.(holders := d.holders + [Holder(kind, 0, 0, false)])
  }

  function SetOpen(d: Desk, h: nat, open: bool): Desk {
    if h < |d.holders| then d.(holders := d.holders[h := d.holders[h].(open := open)]) else d
  }

  // ---- the invariant ----------------------------------------------------

  /** Signed sum of the entries of one holder. */
  function SignedSum(entries: seq<CashEntry>, h: nat): int {
    if entries == [] then 0
    else
      var e := entries[|entries| - 1];
      SignedSum(entries[..|entries| - 1], h) + if e.holder == h then Delta(e) else 0
  }

  ghost predicate EntriesNameHolders(d: Desk) {
    forall i :: 0 <= i < |d.entries| ==> d.entries[i].holder < |d.holders| && d.entries[i].amount > 0
  }

  /** Balance equals opening value plus the signed sum of the holder's entries. */
  ghost predicate BalancesExplained(d: Desk) {
    forall h :: 0 <= h < |d.holders| ==> d.holders[h].balance == d.holders[h].opening + SignedSum(d.entries, h)
  }

  /** Each entry's balanceAfter is the matching prefix sum. */
  ghost predicate EntriesExplained(d: Desk) {
    forall i :: 0 <= i < |d.entries| && d.entries[i].holder < |d.holders| ==>
      d.entries[i].balanceAfter
        == d.holders[d.entries[i].holder].opening + SignedSum(d.entries[..i + 1], d.entries[i].holder)
  }

  ghost predicate NoneNegative(d: Desk) {
    && (forall h :: 0 <= h < |d.holders| ==> d.holders[h].balance >= 0)
    && (forall i :: 0 <= i < |d.entries| ==> d.entries[i].balanceAfter >= 0)
  }

  ghost predicate DeskInv(d: Desk) {
    EntriesNameHolders(d) && BalancesExplained(d) && EntriesExplained(d) && NoneNegative(d)
  }

  lemma SignedSumSnoc(entries: seq<CashEntry>, e: CashEntry, h: nat)
    ensures SignedSum(entries + [e], h) == SignedSum(entries, h) + if e.holder == h then Delta(e) else 0
  {
    assert (entries + [e])[..|entries|] == entries;
  }

  /** A movement that does not overdraw keeps everything the cash ledger promises. */
  lemma MoveKeeps(d: Desk, h: nat, t: EntryType, amount: int)
    requires DeskInv(d) && h < |d.holders| && amount > 0
    requires t in {WITHDRAWAL, TRANSFER_OUT} ==> Covers(d, h, amount)
    ensures DeskInv(Move(d, h, t, amount))
  {
    hide SignedSum;
    var r := Move(d, h, t, amount);
    var e := r.entries[|d.entries|];
    forall g | 0 <= g < |r.holders|
      ensures r.holders[g].balance == r.holders[g].opening + SignedSum(r.entries, g)
    {
      SignedSumSnoc(d.entries, e, g);
    }
    forall i | 0 <= i < |r.entries|
      ensures r.entries[i].balanceAfter
              == r.holders[r.entries[i].holder].opening + SignedSum(r.entries[..i + 1], r.entries[i].holder)
    {
      if i < |d.entries| {
        assert r.entries[..i + 1] == d.entries[..i + 1];
      } else {
        assert r.entries[..i + 1] == r.entries;
      }
    }
  }

  /** An approved transfer between different holders is a movement out followed by a movement in. */
  lemma TransferIsTwoMoves(d: Desk, from: nat, to: nat, amount: int)
    requires from < |d.holders| && to < |d.holders| && from != to && Covers(d, from, amount)
    ensures Transfer(d, from, to, amount) == Move(Move(d, from, TRANSFER_OUT, amount), to, TRANSFER_IN, amount)
  {
    assert d.entries + [CashEntry(from, TRANSFER_OUT, amount, d.holders[from].balance - amount),
                        CashEntry(to, TRANSFER_IN, amount, d.holders[to].balance + amount)]
        == d.entries + [CashEntry(from, TRANSFER_OUT, amount, d.holders[from].balance - amount)]
           + [CashEntry(to, TRANSFER_IN, amount, d.holders[to].balance + amount)];
  }

  lemma TransferKeeps(d: Desk, from: nat, to: nat, amount: int)
    requires DeskInv(d) && from < |d.holders| && to < |d.holders| && from != to && amount > 0
    ensures DeskInv(Transfer(d, from, to, amount))
  {
    hide DeskInv;
    if Covers(d, from, amount) {
      MoveKeeps(d, from, TRANSFER_OUT, amount);
      MoveKeeps(Move(d, from, TRANSFER_OUT, amount), to, TRANSFER_IN, amount);
      TransferIsTwoMoves(d, from, to, amount);
    }
  }

  lemma RegisterKeeps(d: Desk, kind: HolderKind)
    requires DeskInv(d)
    ensures DeskInv(Register(d, kind))
  {
    NoEntries(d.entries, |d.holders|);
  }

  lemma {:induction false} NoEntries(entries: seq<CashEntry>, h: nat)
    requires forall i :: 0 <= i < |entries| ==> entries[i].holder < h
    ensures SignedSum(entries, h) == 0
  {
    if entries != [] {
      NoEntries(entries[..|entries| - 1], h);
    }
  }

  lemma SetOpenKeeps(d: Desk, h: nat, open: bool)
    requires DeskInv(d)
    ensures DeskInv(SetOpen(d, h, open))
  {
    hide SignedSum;
  }

  // ---- conservation -----------------------------------------------------

  function TotalCash(holders: seq<Holder>): int {
    if holders == [] then 0 else holders[0].balance + TotalCash(holders[1..])
  }

  lemma {:induction false} TotalCashUpdate(holders: seq<Holder>, h: nat, x: Holder)
    requires h < |holders|
    ensures TotalCash(holders[h := x]) == TotalCash(holders) + x.balance - holders[h].balance
  {
    if h == 0 {
      assert holders[0 := x][1..] == holders[1..];
    } else {
      assert holders[h := x][1..] == holders[1..][h - 1 := x];
      TotalCashUpdate(holders[1..], h - 1, x);
    }
  }

  lemma TransferConserves(d: Desk, from: nat, to: nat, amount: int)
    requires from < |d.holders| && to < |d.holders|
    ensures TotalCash(Transfer(d, from, to, amount).holders) == TotalCash(d.holders)
  {
    if Covers(d, from, amount) {
      var source := d.holders[from].(balance := d.holders[from].balance - amount);
      var afterOut := d.holders[from := source];
      TotalCashUpdate(d.holders, from, source);
      TotalCashUpdate(afterOut, to, afterOut[to].(balance := afterOut[to].balance + amount));
    }
  }

  lemma MoveTotal(d: Desk, h: nat, t: EntryType, amount: int)
    requires h < |d.holders|
    ensures TotalCash(Move(d, h, t, amount).holders) == TotalCash(d.holders) + Delta(CashEntry(h, t, amount, 0))
  {
    TotalCashUpdate(d.holders, h, Move(d, h, t, amount).holders[h]);
  }
}
