/**
  Allocation of a repayment over the installments of a loan: oldest first,
  interest before principal. In whole cents the half-cent thresholds of the
  program are comparisons with zero, and its 0.01 tolerance is one cent.
 */
module RepaymentAllocation {
  import opened Money

  datatype InstallmentStatus = PENDING | PARTIALLY_PAID | PAID

  /** The value of an installment at one moment. */
  datatype InstallmentState = InstallmentState(
    id: nat, interestDue: int, principalDue: int, interestPaid: int, principalPaid: int, status: InstallmentStatus)

  datatype AllocationUpdate = AllocationUpdate(id: nat, newInterestPaid: int, newPrincipalPaid: int,
      newStatus: InstallmentStatus)

  // ---- specification ----------------------------------------------------

  function InterestOutstanding(s: InstallmentState): int { s.interestDue - s.interestPaid }

  function PrincipalOutstanding(s: InstallmentState): int { s.principalDue - s.principalPaid }

  /** What an installment can still absorb; an overpaid part absorbs nothing. */
  function Absorbs(s: InstallmentState): nat {
    Max(0, InterestOutstanding(s)) + Max(0, PrincipalOutstanding(s))
  }

  predicate FullyPaid(s: InstallmentState) {
    s.interestPaid >= s.interestDue - 1 && s.principalPaid >= s.principalDue - 1
  }

  /** One installment after `x` cents, at most what it absorbs, have been put into it. */
  function Pay(s: InstallmentState, x: nat): InstallmentState {
    if x == 0 then s
    else
      var interest := Min(x, Max(0, InterestOutstanding(s)));
      var t := s.(interestPaid := s.interestPaid + interest, principalPaid := s.principalPaid + x - interest);
      t.(status := if FullyPaid(t) then PAID else PARTIALLY_PAID)
  }

  /** All installments after `amount` cents have been allocated to them in order. */
  function Allocate(installments: seq<InstallmentState>, amount: int): (r: seq<InstallmentState>)
    ensures |r| == |installments|
  {
    if installments == [] || amount <= 0 then installments
    else
      var x := Min(amount, Absorbs(installments[0]));
      [Pay(installments[0], x)] + Allocate(installments[1..], amount - x)
  }

  /** The changed installments, in order. */
  function Updates(installments: seq<InstallmentState>, amount: int): seq<AllocationUpdate> {
    if installments == [] || amount <= 0 then []
    else
      var x := Min(amount, Absorbs(installments[0]));
      (if x > 0 then [UpdateOf(Pay(installments[0], x))] else []) + Updates(installments[1..], amount - x)
  }

  function UpdateOf(s: InstallmentState): AllocationUpdate {
    AllocationUpdate(s.id, s.interestPaid, s.principalPaid, s.status)
  }

  // ---- the program ------------------------------------------------------

  class Installment {
    const id: nat
    const interestDue: int
    const principalDue: int
    var interestPaid: int
    var principalPaid: int
    var status: InstallmentStatus

    constructor (id: nat, interestDue: int, principalDue: int)
      ensures State() == InstallmentState(id, interestDue, principalDue, 0, 0, PENDING)
    {
      this.id, this.interestDue, this.principalDue := id, interestDue, principalDue;
      interestPaid, principalPaid, status := 0, 0, PENDING;
    }

    function State(): InstallmentState
      reads this
    {
      InstallmentState(id, interestDue, principalDue, interestPaid, principalPaid, status)
    }
  }

  function States(installments: seq<Installment>): (r: seq<InstallmentState>)
    reads installments
    ensures |r| == |installments|
    ensures forall i :: 0 <= i < |r| ==> r[i] == installments[i].State()
  {
    if installments == [] then [] else [installments[0].State()] + States(installments[1..])
  }

  ghost predicate Distinct<T>(s: seq<T>) {
    forall i, j :: 0 <= i < j < |s| ==> s[i] != s[j]
  }

  /** Writes the paid amounts and the status of each installment in place, and lists the changes. */
  method AllocateRepayment(installments: seq<Installment>, amount: int) returns (updates: seq<AllocationUpdate>)
    requires Distinct(installments)
    modifies installments
    ensures States(installments) == Allocate(old(States(installments)), amount)
    ensures updates == Updates(old(States(installments)), amount)
  {
    hide Pay, Absorbs, UpdateOf, Allocate, Updates;
    var remaining := amount;
    updates := [];
    ghost var before := States(installments);
    ghost var goal := Allocate(before, amount);
    hide States;
    var n := 0;
    while n < |installments| && remaining > 0
      invariant 0 <= n <= |installments|
      invariant forall i :: 0 <= i < n ==> installments[i].State() == goal[i]
      invariant forall i :: n <= i < |installments| ==> installments[i].State() == before[i]
      invariant goal[n..] == Allocate(before[n..], remaining)
      invariant Updates(before, amount) == updates + Updates(before[n..], remaining)
    {
      AllocateHead(before, n, goal, remaining);
      var update;
      remaining, update := PayInstallment(installments[n], remaining);
      updates := updates + update;
      n := n + 1;
    }
    AllocateStops(before[n..], remaining);
    SameSuffix(goal, before, n);
  }

  lemma SameSuffix<T>(a: seq<T>, b: seq<T>, n: nat)
    requires n <= |a| == |b| && a[n..] == b[n..]
    ensures forall i :: n <= i < |a| ==> a[i] == b[i]
  {
    forall i | n <= i < |a|
      ensures a[i] == b[i]
    {
      assert a[i] == a[n..][i - n] && b[i] == b[n..][i - n];
    }
  }

  /** One turn of the loop on the specification side. */
  lemma AllocateHead(before: seq<InstallmentState>, n: nat, goal: seq<InstallmentState>, remaining: int)
    requires n < |before| == |goal| && remaining > 0
    requires goal[n..] == Allocate(before[n..], remaining)
    ensures var x := Min(remaining, Absorbs(before[n]));
            && goal[n] == Pay(before[n], x)
            && goal[n + 1..] == Allocate(before[n + 1..], remaining - x)
            && Updates(before[n..], remaining)
               == (if x > 0 then [UpdateOf(Pay(before[n], x))] else []) + Updates(before[n + 1..], remaining - x)
  {
    hide Pay, Absorbs, UpdateOf, Allocate, Updates;
    assert before[n..] == [before[n]] + before[n + 1..];
    AllocateCons(before[n], before[n + 1..], remaining);
    assert goal[n] == goal[n..][0] && goal[n + 1..] == goal[n..][1..];
  }

  /** The body of the loop: pay one installment, report what remains and what changed. */
  method PayInstallment(inst: Installment, amount: int) returns (remaining: int, update: seq<AllocationUpdate>)
    requires amount > 0
    modifies inst
    ensures var x := Min(amount, Absorbs(old(inst.State())));
            && inst.State() == Pay(old(inst.State()), x)
            && remaining == amount - x
            && update == if x > 0 then [UpdateOf(inst.State())] else []
  {
    remaining := amount;
    update := [];
    var interestOutstanding := inst.interestDue - inst.interestPaid;
    var principalOutstanding := inst.principalDue - inst.principalPaid;
    if interestOutstanding <= 0 && principalOutstanding <= 0 {
      return;
    }
    var interestPaidNow, principalPaidNow := 0, 0;
    if interestOutstanding > 0 {
      interestPaidNow := Min(remaining, interestOutstanding);
      remaining := remaining - interestPaidNow;
    }
    if remaining > 0 && principalOutstanding > 0 {
      principalPaidNow := Min(remaining, principalOutstanding);
      remaining := remaining - principalPaidNow;
    }
    if interestPaidNow > 0 || principalPaidNow > 0 {
      var newInterestPaid := inst.interestPaid + interestPaidNow;
      var newPrincipalPaid := inst.principalPaid + principalPaidNow;
      var fullyPaid := newInterestPaid >= inst.interestDue - 1 && newPrincipalPaid >= inst.principalDue - 1;
      var newStatus := if fullyPaid then PAID else PARTIALLY_PAID;
      inst.interestPaid := newInterestPaid;
      inst.principalPaid := newPrincipalPaid;
      inst.status := newStatus;
      update := [AllocationUpdate(inst.id, newInterestPaid, newPrincipalPaid, newStatus)];
    }
  }

  /** Interest is served first, principal only beyond it, and what is paid is no longer absorbed. */
  lemma PayMeans(s: InstallmentState, x: nat)
    requires x <= Absorbs(s)
    ensures x <= Max(0, InterestOutstanding(s)) ==> Pay(s, x).principalPaid == s.principalPaid
    ensures x > Max(0, InterestOutstanding(s)) ==>
              Pay(s, x).interestPaid == s.interestPaid + Max(0, InterestOutstanding(s))
              && Pay(s, x).principalPaid - s.principalPaid
                 == x - Max(0, InterestOutstanding(s)) <= PrincipalOutstanding(s)
    ensures Absorbs(Pay(s, x)) == Absorbs(s) - x
  {
  }

  // ---- replay -----------------------------------------------------------

  /** Paying x and then y into one installment is paying x + y. */
  lemma PayTwice(s: InstallmentState, x: nat, y: nat)
    requires x + y <= Absorbs(s)
    ensures Pay(Pay(s, x), y) == Pay(s, x + y)
  {
  }

  /**
    Allocating a and then b is allocating a + b once: paid amounts, statuses
    and all. Nothing is asked of the installments; they may be part paid or
    overpaid.
   */
  lemma {:induction false} AllocateTwice(s: seq<InstallmentState>, a: int, b: int)
    requires a >= 0 && b >= 0
    ensures Allocate(Allocate(s, a), b) == Allocate(s, a + b)
  {
    hide Allocate, Pay, Absorbs;
    if s == [] || b == 0 {
      AllocateStops(Allocate(s, a), b);
      if s == [] {
        AllocateStops(s, a + b);
      }
    } else if a == 0 {
      AllocateStops(s, 0);
    } else {
      var h, t := s[0], s[1..];
      assert s == [h] + t;
      var x := Min(a, Absorbs(h));
      PayMeans(h, x);
      PayTwice(h, x, Min(b, Absorbs(h) - x));
      AllocateCons(h, t, a);
      AllocateCons(h, t, a + b);
      AllocateCons(Pay(h, x), Allocate(t, a - x), b);
      AllocateStops(t, 0);
      if a - x > 0 {
        AllocateTwice(t, a - x, b);
      }
    }
  }

  lemma AllocateStops(s: seq<InstallmentState>, amount: int)
    requires s == [] || amount <= 0
    ensures Allocate(s, amount) == s && Updates(s, amount) == []
  {
  }

  lemma AllocateCons(h: InstallmentState, t: seq<InstallmentState>, amount: int)
    requires amount > 0
    ensures var x := Min(amount, Absorbs(h));
            && Allocate([h] + t, amount) == [Pay(h, x)] + Allocate(t, amount - x)
            && Updates([h] + t, amount) == (if x > 0 then [UpdateOf(Pay(h, x))] else []) + Updates(t, amount - x)
  {
    assert ([h] + t)[1..] == t;
  }

  /** A sequence of repayments, one allocation after the other. */
  function AllocateAll(s: seq<InstallmentState>, amounts: seq<int>): seq<InstallmentState>
    decreases |amounts|
  {
    if amounts == [] then s else AllocateAll(Allocate(s, amounts[0]), amounts[1..])
  }

  /** Replaying any history of repayments is one allocation of their sum. */
  lemma {:induction false} ReplayIsOneAllocation(s: seq<InstallmentState>, amounts: seq<int>)
    requires forall i :: 0 <= i < |amounts| ==> amounts[i] >= 0
    ensures Sum(amounts) >= 0
    ensures AllocateAll(s, amounts) == Allocate(s, Sum(amounts))
    decreases |amounts|
  {
    if amounts != [] {
      ReplayIsOneAllocation(Allocate(s, amounts[0]), amounts[1..]);
      AllocateTwice(s, amounts[0], Sum(amounts[1..]));
    }
  }

  // ---- conservation -----------------------------------------------------

  function TotalPaid(s: seq<InstallmentState>): int {
    if s == [] then 0 else s[0].interestPaid + s[0].principalPaid + TotalPaid(s[1..])
  }

  function TotalDue(s: seq<InstallmentState>): int {
    if s == [] then 0 else s[0].interestDue + s[0].principalDue + TotalDue(s[1..])
  }

  function TotalAbsorbs(s: seq<InstallmentState>): nat {
    if s == [] then 0 else Absorbs(s[0]) + TotalAbsorbs(s[1..])
  }

  /** No cent is lost or made: the paid total rises by the smaller of the amount and what was outstanding. */
  lemma {:induction false} PaidTotalRises(s: seq<InstallmentState>, amount: int)
    requires amount >= 0
    ensures TotalPaid(Allocate(s, amount)) == TotalPaid(s) + Min(amount, TotalAbsorbs(s))
    ensures TotalAbsorbs(Allocate(s, amount)) == TotalAbsorbs(s) - Min(amount, TotalAbsorbs(s))
    ensures forall i :: 0 <= i < |s| ==> Monotone(s[i], Allocate(s, amount)[i])
  {
    hide Pay, Absorbs, Allocate, Monotone;
    if s == [] || amount == 0 {
      AllocateStops(s, amount);
      forall i | 0 <= i < |s|
        ensures Monotone(s[i], s[i])
      {
        PayRaises(s[i], 0);
      }
    } else {
      var h, t, x := s[0], s[1..], Min(amount, Absorbs(s[0]));
      assert s == [h] + t;
      AllocateCons(h, t, amount);
      PayMeans(h, x);
      PayRaises(h, x);
      PaidTotalRises(t, amount - x);
    }
  }

  lemma PayRaises(s: InstallmentState, x: nat)
    requires x <= Absorbs(s)
    ensures Monotone(s, Pay(s, x)) && Monotone(s, s)
    ensures Pay(s, x).interestPaid + Pay(s, x).principalPaid == s.interestPaid + s.principalPaid + x
  {
  }

  /** What an allocation may do to one installment: raise paid amounts, nothing else but the status. */
  predicate Monotone(s: InstallmentState, t: InstallmentState) {
    && t.id == s.id && t.interestDue == s.interestDue && t.principalDue == s.principalDue
    && t.interestPaid >= s.interestPaid && t.principalPaid >= s.principalPaid
    && (t == s || t.status == (if FullyPaid(t) then PAID else PARTIALLY_PAID))
  }

  // ---- a fresh schedule fills like a row of buckets ----------------------

  predicate UnpaidInstallment(s: InstallmentState) {
    s.interestPaid == 0 && s.principalPaid == 0 && s.status == PENDING
  }

  predicate FreshInstallment(s: InstallmentState) {
    UnpaidInstallment(s) && s.interestDue >= 0 && s.principalDue >= 0
  }

  /** A new schedule, of whatever amounts: splitting a balance evenly can leave a negative last row. */
  predicate Unpaid(s: seq<InstallmentState>) {
    forall i :: 0 <= i < |s| ==> UnpaidInstallment(s[i])
  }

  predicate Fresh(s: seq<InstallmentState>) {
    forall i :: 0 <= i < |s| ==> FreshInstallment(s[i])
  }

  function Clamp(x: int, hi: nat): nat {
    Min(Max(0, x), hi)
  }

  /** The independent definition: installment `s` when `due` cents fall due before it and `total` have been paid. */
  function Waterfall(s: InstallmentState, due: int, total: int): InstallmentState
    requires FreshInstallment(s)
  {
    if total <= due || s.interestDue + s.principalDue == 0 then s
    else
      var t := s.(interestPaid := Clamp(total - due, s.interestDue),
                  principalPaid := Clamp(total - due - s.interestDue, s.principalDue));
      t.(status := if FullyPaid(t) then PAID else PARTIALLY_PAID)
  }

  /** From a fresh schedule, every installment depends only on the total paid and on what falls due before it. */
  lemma {:induction false} AllocateIsWaterfall(s: seq<InstallmentState>, total: int, i: nat)
    requires Fresh(s) && i < |s|
    ensures Allocate(s, total)[i] == Waterfall(s[i], TotalDue(s[..i]), total)
  {
    hide Pay, Waterfall, Absorbs, Allocate;
    TotalDueNonNegative(s[..i]);
    if total <= 0 {
      AllocateStops(s, total);
      BucketUntouched(s[i], TotalDue(s[..i]), total);
    } else {
      var h, t := s[0], s[1..];
      assert s == [h] + t;
      AllocateCons(h, t, total);
      BucketFills(h, total);
      if i > 0 {
        AllocateIsWaterfall(t, total - Min(total, Absorbs(h)), i - 1);
        assert s[..i][0] == h && s[..i][1..] == t[..i - 1];
        TotalDueNonNegative(t[..i - 1]);
        BucketAfter(s[i], TotalDue(t[..i - 1]), h.interestDue + h.principalDue, total);
      }
    }
  }

  lemma BucketUntouched(s: InstallmentState, due: nat, total: int)
    requires FreshInstallment(s) && total <= due
    ensures Waterfall(s, due, total) == s
  {
  }

  lemma BucketFills(s: InstallmentState, total: int)
    requires FreshInstallment(s) && total > 0
    ensures Pay(s, Min(total, Absorbs(s))) == Waterfall(s, 0, total)
    ensures Absorbs(s) == s.interestDue + s.principalDue
  {
  }

  /** Filling an earlier bucket of `size` cents first is falling due `size` cents later. */
  lemma BucketAfter(s: InstallmentState, due: nat, size: nat, total: nat)
    requires FreshInstallment(s)
    ensures Waterfall(s, due, total - Min(total, size)) == Waterfall(s, size + due, total)
  {
  }

  lemma {:induction false} TotalDueNonNegative(s: seq<InstallmentState>)
    requires Fresh(s)
    ensures TotalDue(s) >= 0
  {
    if s != [] {
      TotalDueNonNegative(s[1..]);
    }
  }

  lemma {:induction false} TotalDueSplit(s: seq<InstallmentState>, i: nat)
    requires i < |s|
    ensures TotalDue(s[..i + 1]) == TotalDue(s[..i]) + s[i].interestDue + s[i].principalDue
  {
    if i > 0 {
      assert s[..i + 1][1..] == s[1..][..i] && s[..i][1..] == s[1..][..i - 1];
      TotalDueSplit(s[1..], i - 1);
    } else {
      assert s[..1][1..] == [] && s[..0] == [];
    }
  }

  lemma {:induction false} TotalDueMonotone(s: seq<InstallmentState>, i: nat, j: nat)
    requires Fresh(s) && i <= j <= |s|
    ensures TotalDue(s[..i]) <= TotalDue(s[..j])
    decreases j - i
  {
    if i < j {
      TotalDueMonotone(s, i, j - 1);
      TotalDueSplit(s, j - 1);
    }
  }

  predicate Settled(s: InstallmentState) { s.interestPaid == s.interestDue && s.principalPaid == s.principalDue }

  /**
    The shape of a repaid schedule: settled installments, then at most one
    that is part paid, then installments nobody has touched. Principal is paid
    only where interest is settled.
   */
  lemma RepaidShape(s: seq<InstallmentState>, total: int) returns (k: nat)
    requires Fresh(s)
    ensures k <= |s|
    ensures forall i :: 0 <= i < k ==> Settled(Allocate(s, total)[i])
    ensures forall i :: k < i < |s| ==> Allocate(s, total)[i] == s[i]
    ensures k < |s| ==> !Settled(Allocate(s, total)[k])
    ensures forall i :: 0 <= i < |s| && Allocate(s, total)[i].principalPaid > 0 ==>
            Allocate(s, total)[i].interestPaid == s[i].interestDue
    ensures forall i :: 0 <= i < k && s[i].interestDue + s[i].principalDue > 0 ==> Allocate(s, total)[i].status == PAID
  {
    var r := Allocate(s, total);
    k := 0;
    while k < |s| && Settled(r[k])
      invariant k <= |s|
      invariant forall i :: 0 <= i < k ==> Settled(r[i])
    {
      k := k + 1;
    }
    hide Waterfall, Allocate, TotalDue;
    forall i | 0 <= i < |s|
      ensures k < i ==> r[i] == s[i]
      ensures r[i].principalPaid > 0 ==> r[i].interestPaid == s[i].interestDue
      ensures i < k && s[i].interestDue + s[i].principalDue > 0 ==> r[i].status == PAID
    {
      AllocateIsWaterfall(s, total, i);
      RowShape(s[i], TotalDue(s[..i]), total);
      if k < i {
        AllocateIsWaterfall(s, total, k);
        RowShape(s[k], TotalDue(s[..k]), total);
        TotalDueSplit(s, k);
        TotalDueMonotone(s, k + 1, i);
      }
    }
  }

  lemma RowShape(s: InstallmentState, due: int, total: int)
    requires FreshInstallment(s)
    ensures var r := Waterfall(s, due, total);
            && (total <= due ==> r == s)
            && (!Settled(r) ==> total < due + s.interestDue + s.principalDue)
            && (Settled(r) && s.interestDue + s.principalDue > 0 ==> r.status == PAID)
            && (r.principalPaid > 0 ==> r.interestPaid == s.interestDue)
  {
  }

  // ---- closure ----------------------------------------------------------

  /** The loan is closed when there are installments and all are marked PAID. */
  predicate AllPaid(s: seq<InstallmentState>) {
    |s| > 0 && forall i :: 0 <= i < |s| ==> s[i].status == PAID
  }

  /** The promise: closed exactly when all but one cent of the total has been repaid. */
  predicate ClosesOnTime(s: seq<InstallmentState>, total: int) {
    AllPaid(Allocate(s, total)) <==> total >= TotalDue(s) - 1
  }

  /** A row with its negative amounts taken as nothing, as the allocation takes them. */
  function Clip(s: InstallmentState): InstallmentState {
    s.(interestDue := Max(0, s.interestDue), principalDue := Max(0, s.principalDue))
  }

  function ClipAll(s: seq<InstallmentState>): (r: seq<InstallmentState>)
    ensures |r| == |s| && forall i :: 0 <= i < |s| ==> r[i] == Clip(s[i])
  {
    if s == [] then [] else [Clip(s[0])] + ClipAll(s[1..])
  }

  /** What the negative amounts of a schedule come to. */
  function Negative(s: seq<InstallmentState>): nat {
    if s == [] then 0 else Max(0, -s[0].interestDue) + Max(0, -s[0].principalDue) + Negative(s[1..])
  }

  lemma {:induction false} ClippedTotal(s: seq<InstallmentState>)
    ensures TotalDue(ClipAll(s)) == TotalDue(s) + Negative(s)
  {
    if s != [] {
      ClippedTotal(s[1..]);
      assert ClipAll(s)[1..] == ClipAll(s[1..]);
    }
  }

  predicate SamePayments(s: InstallmentState, t: InstallmentState) {
    s.interestPaid == t.interestPaid && s.principalPaid == t.principalPaid && s.status == t.status
  }

  /** Negative amounts make no difference to what is paid where, nor to how it is marked. */
  lemma {:induction false} ClipAllocates(s: seq<InstallmentState>, total: int, i: nat)
    requires Unpaid(s) && i < |s|
    ensures SamePayments(Allocate(ClipAll(s), total)[i], Allocate(s, total)[i])
  {
    hide Pay, Absorbs, Allocate;
    if total <= 0 {
      AllocateStops(s, total);
      AllocateStops(ClipAll(s), total);
    } else {
      var h, t := s[0], s[1..];
      assert s == [h] + t && ClipAll(s) == [Clip(h)] + ClipAll(t);
      AllocateCons(h, t, total);
      AllocateCons(Clip(h), ClipAll(t), total);
      ClipPays(h, Min(total, Absorbs(h)));
      if i > 0 {
        ClipAllocates(t, total - Min(total, Absorbs(h)), i - 1);
      }
    }
  }

  lemma ClipPays(s: InstallmentState, x: nat)
    requires UnpaidInstallment(s) && x <= Absorbs(s)
    ensures Absorbs(Clip(s)) == Absorbs(s) && SamePayments(Pay(Clip(s), x), Pay(s, x))
  {
  }

  /** What a row asks for. */
  function Owes(s: InstallmentState): nat { Max(0, s.interestDue) + Max(0, s.principalDue) }

  /** From how many cents on a row is marked PAID: the one-cent tolerance can be used on principal and on interest. */
  function PaidFrom(s: InstallmentState): int {
    if s.principalDue >= 2 then s.interestDue + s.principalDue - 1 else Max(1, s.interestDue - 1)
  }

  lemma RowPaidFrom(s: InstallmentState, due: nat, total: int)
    requires FreshInstallment(s) && Owes(s) > 0
    ensures Waterfall(s, due, total).status == PAID <==> total >= due + PaidFrom(s)
  {
  }

  /** On the last installment the one-cent tolerance can be used only once. */
  predicate LastInstallmentExact(s: InstallmentState) {
    || s.principalDue >= 2
    || (s.principalDue == 1 && s.interestDue == 1)
    || (s.principalDue == 0 && s.interestDue >= 2)
  }

  /**
    Every installment asks for something, and the last one makes up exactly
    for what the negative amounts take off the total: for nothing, or for one
    cent, when it is marked PAID one cent early.
   */
  predicate ExactSchedule(s: seq<InstallmentState>) {
    && |s| > 0
    && (forall i :: 0 <= i < |s| ==> Owes(s[i]) > 0)
    && var last := s[|s| - 1];
       if Negative(s) == 0 then LastInstallmentExact(last)
       else Negative(s) == 1 && last.principalDue == 1 && last.interestDue >= 2
  }

  lemma WholeDue(s: seq<InstallmentState>)
    requires |s| > 0
    ensures TotalDue(s) == TotalDue(s[..|s| - 1]) + s[|s| - 1].interestDue + s[|s| - 1].principalDue
  {
    TotalDueSplit(s, |s| - 1);
    assert s[..|s|] == s;
  }

  /** When every installment has something due, only the last one decides. */
  lemma AllPaidIsLastPaid(s: seq<InstallmentState>, total: int)
    requires Fresh(s) && |s| > 0
    requires forall i :: 0 <= i < |s| ==> s[i].interestDue + s[i].principalDue > 0
    ensures AllPaid(Allocate(s, total)) <==> Waterfall(s[|s| - 1], TotalDue(s[..|s| - 1]), total).status == PAID
  {
    hide Waterfall, Allocate, TotalDue;
    var last := |s| - 1;
    AllocateIsWaterfall(s, total, last);
    RowStarted(s[last], TotalDue(s[..last]), total);
    if Waterfall(s[last], TotalDue(s[..last]), total).status == PAID {
      forall i | 0 <= i < last
        ensures Allocate(s, total)[i].status == PAID
      {
        AllocateIsWaterfall(s, total, i);
        TotalDueSplit(s, i);
        TotalDueMonotone(s, i + 1, last);
        RowCovered(s[i], TotalDue(s[..i]), total);
      }
    }
  }

  lemma RowStarted(s: InstallmentState, due: int, total: int)
    requires FreshInstallment(s)
    ensures Waterfall(s, due, total).status == PAID ==> total > due
  {
  }

  lemma RowCovered(s: InstallmentState, due: int, total: int)
    requires FreshInstallment(s) && s.interestDue + s.principalDue > 0 && total >= due + s.interestDue + s.principalDue
    ensures Waterfall(s, due, total).status == PAID
  {
  }

  lemma NothingOwed(s: InstallmentState, due: int, total: int)
    requires FreshInstallment(s) && s.interestDue + s.principalDue == 0
    ensures Waterfall(s, due, total).status == PENDING
  {
  }

  /** The total from which on a schedule is closed. */
  function ClosedFrom(s: seq<InstallmentState>): int
    requires |s| > 0
  {
    var c := ClipAll(s);
    TotalDue(c[..|c| - 1]) + PaidFrom(c[|c| - 1])
  }

  /** A schedule of any amounts closes from that total on if every row asks for something, and otherwise never. */
  lemma ClosesFrom(s: seq<InstallmentState>, total: int)
    requires Unpaid(s) && |s| > 0
    ensures if forall i :: 0 <= i < |s| ==> Owes(s[i]) > 0
            then ClosedFrom(s) >= 1 && (AllPaid(Allocate(s, total)) <==> total >= ClosedFrom(s))
            else !AllPaid(Allocate(s, total))
  {
    hide Waterfall, Allocate, TotalDue;
    var c, last := ClipAll(s), |s| - 1;
    SameClosure(s, total);
    TotalDueNonNegative(c[..last]);
    if i :| 0 <= i < |s| && Owes(s[i]) == 0 {
      AllocateIsWaterfall(c, total, i);
      NothingOwed(c[i], TotalDue(c[..i]), total);
    } else {
      AllPaidIsLastPaid(c, total);
      RowPaidFrom(c[last], TotalDue(c[..last]), total);
    }
  }

  lemma SameClosure(s: seq<InstallmentState>, total: int)
    requires Unpaid(s)
    ensures AllPaid(Allocate(s, total)) <==> AllPaid(Allocate(ClipAll(s), total))
  {
    forall i | 0 <= i < |s|
      ensures Allocate(s, total)[i].status == Allocate(ClipAll(s), total)[i].status
    {
      ClipAllocates(s, total, i);
    }
  }

  /** The exact schedules are those closed from the total due less one cent on. */
  lemma ExactMeans(s: seq<InstallmentState>)
    requires |s| > 0 && forall i :: 0 <= i < |s| ==> Owes(s[i]) > 0
    ensures ClosedFrom(s) == TotalDue(s) - 1 <==> ExactSchedule(s)
  {
    var c, last := ClipAll(s), s[|s| - 1];
    ClippedTotal(s);
    WholeDue(c);
    hide TotalDue, ClipAll, Negative;
    NegativeLast(s);
    assert c[|c| - 1] == Clip(last) && Owes(last) > 0;
    LastMakesUp(Max(0, last.interestDue), Max(0, last.principalDue), Negative(s));
  }

  lemma {:induction false} NegativeLast(s: seq<InstallmentState>)
    requires |s| > 0
    ensures Negative(s) >= Max(0, -s[|s| - 1].interestDue) + Max(0, -s[|s| - 1].principalDue)
  {
    if |s| > 1 {
      NegativeLast(s[1..]);
    }
  }

  lemma LastMakesUp(interest: nat, principal: nat, negative: nat)
    requires interest + principal > 0
    ensures var from := if principal >= 2 then interest + principal - 1 else Max(1, interest - 1);
            from + negative == interest + principal - 1
            <==> (if negative == 0 then principal >= 2 || (principal == 1 && interest == 1)
              || (principal == 0 && interest >= 2)
                  else negative == 1 && principal == 1 && interest >= 2)
  {
  }

  lemma ExactScheduleCloses(s: seq<InstallmentState>, total: int)
    requires Unpaid(s) && ExactSchedule(s) && total >= 0
    ensures ClosesOnTime(s, total)
  {
    ClosesFrom(s, total);
    ExactMeans(s);
  }

  /** A schedule that is not exact has a total at which it closes too early, too late, or never. */
  lemma InexactScheduleFails(s: seq<InstallmentState>) returns (total: int)
    requires Unpaid(s) && !ExactSchedule(s)
    ensures total >= 0 && !ClosesOnTime(s, total)
  {
    if |s| == 0 {
      total := 0;
    } else if forall i :: 0 <= i < |s| ==> Owes(s[i]) > 0 {
      ExactMeans(s);
      total := Max(0, Min(ClosedFrom(s), TotalDue(s) - 1));
      ClosesFrom(s, total);
    } else {
      total := Max(0, TotalDue(s) - 1);
      ClosesFrom(s, total);
    }
  }

  /**
    The loan closes exactly at the total due less one cent, for every total
    repaid, if and only if the schedule is exact. Amounts may be of any sign.
   */
  lemma ClosureCondition(s: seq<InstallmentState>)
    requires Unpaid(s)
    ensures (forall total: int | total >= 0 :: ClosesOnTime(s, total)) <==> ExactSchedule(s)
  {
    if ExactSchedule(s) {
      forall total: int | total >= 0
        ensures ClosesOnTime(s, total)
      {
        ExactScheduleCloses(s, total);
      }
    } else {
      var total := InexactScheduleFails(s);
    }
  }

  /** A row that asks for nothing, such as a negative one, is never marked PAID: the loan never closes. */
  lemma NeverCloses(s: seq<InstallmentState>, i: nat, total: int)
    requires Unpaid(s) && i < |s| && s[i].interestDue <= 0 && s[i].principalDue <= 0
    ensures !AllPaid(Allocate(s, total))
  {
    ClosesFrom(s, total);
    assert Owes(s[i]) == 0;
  }

  lemma {:induction false} NoNegative(s: seq<InstallmentState>)
    requires Fresh(s)
    ensures Negative(s) == 0
  {
    if s != [] {
      NoNegative(s[1..]);
    }
  }

  /** A loan with two cents of principal in every installment closes on time. */
  lemma TwoCentsOfPrincipalSuffice(s: seq<InstallmentState>, total: int)
    requires Fresh(s) && |s| > 0 && total >= 0
    requires forall i :: 0 <= i < |s| ==> s[i].principalDue >= 2
    ensures ClosesOnTime(s, total)
  {
    NoNegative(s);
    ExactScheduleCloses(s, total);
  }

  /** Five cents of interest and one of principal: marked PAID, and so closed, after four of the six cents due. */
  lemma ClosesTwoCentsEarly(s: seq<InstallmentState>)
    requires s == [InstallmentState(0, 5, 1, 0, 0, PENDING)]
    ensures Fresh(s) && TotalDue(s) == 6 && !ClosesOnTime(s, 4)
  {
    hide Allocate;
    WholeDue(s);
    AllPaidIsLastPaid(s, 4);
  }
}
