/** Outstanding principal per customer: what the concentration metrics are computed from. */
module Exposures {
  import opened Money
  import opened GeneralLedger
  import opened LedgerReports
  import Concentration

  /** A loan as the handler reads it. */
  datatype OpenLoan = OpenLoan(customer: nat, principal: int, principalPaid: int)

  function Outstanding(l: OpenLoan): nat { Max(0, l.principal - l.principalPaid) }

  function TotalOutstanding(loans: seq<OpenLoan>): nat {
    if loans == [] then 0 else TotalOutstanding(loans[..|loans| - 1]) + Outstanding(loans[|loans| - 1])
  }

  function TotalPrincipal(loans: seq<OpenLoan>): int {
    if loans == [] then 0 else TotalPrincipal(loans[..|loans| - 1]) + loans[|loans| - 1].principal
  }

  function TotalPaid(loans: seq<OpenLoan>): int {
    if loans == [] then 0 else TotalPaid(loans[..|loans| - 1]) + loans[|loans| - 1].principalPaid
  }

  /**
    When nobody has overpaid, what is outstanding is what was lent less what was
    paid back; an overpaid loan owes nothing.
   */
  lemma {:induction false} OutstandingIsUnpaid(loans: seq<OpenLoan>)
    requires forall i :: 0 <= i < |loans| ==> loans[i].principalPaid <= loans[i].principal
    ensures TotalOutstanding(loans) == TotalPrincipal(loans) - TotalPaid(loans)
    ensures forall l: OpenLoan | l.principal <= l.principalPaid ::
              TotalOutstanding(loans + [l]) == TotalOutstanding(loans)
  {
    if loans != [] {
      OutstandingIsUnpaid(loans[..|loans| - 1]);
    }
    forall l: OpenLoan | l.principal <= l.principalPaid
      ensures TotalOutstanding(loans + [l]) == TotalOutstanding(loans)
    {
      assert (loans + [l])[..|loans|] == loans;
    }
  }

  /** What one customer owes over all loans. */
  function OutstandingOf(loans: seq<OpenLoan>, c: nat): nat {
    if loans == [] then 0
    else
      OutstandingOf(loans[..|loans| - 1], c)
      + if loans[|loans| - 1].customer == c then Outstanding(loans[|loans| - 1]) else 0
  }

  /** The Map from customer to outstanding amount. */
  function ByCustomer(loans: seq<OpenLoan>): Balances {
    if loans == [] then []
    else
      var m, l := ByCustomer(loans[..|loans| - 1]), loans[|loans| - 1];
      Put(m, l.customer, Get(m, l.customer) + Outstanding(l))
  }

  /** Each customer appears once, with everything that customer owes; together they owe what all loans owe. */
  lemma {:induction false} ByCustomerMeans(loans: seq<OpenLoan>, c: nat)
    ensures Get(ByCustomer(loans), c) == OutstandingOf(loans, c)
    ensures DistinctAccounts(ByCustomer(loans))
    ensures SumBalances(ByCustomer(loans)) == TotalOutstanding(loans)
  {
    if loans != [] {
      var before, l := loans[..|loans| - 1], loans[|loans| - 1];
      ByCustomerMeans(before, c);
      var m := ByCustomer(before);
      var v := Get(m, l.customer) + Outstanding(l);
      PutGet(m, l.customer, v, c);
      PutDistinct(m, l.customer, v);
      PutSum(m, l.customer, v);
    }
  }

  ghost predicate NonNegative(m: Balances) {
    forall i :: 0 <= i < |m| ==> m[i].balance >= 0
  }

  lemma {:induction false} PutNonNegative(m: Balances, a: nat, v: int)
    requires NonNegative(m) && v >= 0
    ensures NonNegative(Put(m, a, v))
  {
    if m != [] && m[0].account != a {
      PutNonNegative(m[1..], a, v);
    }
  }

  lemma {:induction false} GetNonNegative(m: Balances, a: nat)
    requires NonNegative(m)
    ensures Get(m, a) >= 0
  {
    if m != [] && m[0].account != a {
      GetNonNegative(m[1..], a);
    }
  }

  lemma {:induction false} ByCustomerNonNegative(loans: seq<OpenLoan>)
    ensures NonNegative(ByCustomer(loans))
  {
    if loans != [] {
      var m, l := ByCustomer(loans[..|loans| - 1]), loans[|loans| - 1];
      ByCustomerNonNegative(loans[..|loans| - 1]);
      GetNonNegative(m, l.customer);
      PutNonNegative(m, l.customer, Get(m, l.customer) + Outstanding(l));
    }
  }

  /** values().filter: the positive amounts in the order of the Map. */
  function Positive(m: Balances): (e: seq<int>)
    ensures forall i :: 0 <= i < |e| ==> e[i] > 0
  {
    if m == [] then [] else (if m[0].balance > 0 then [m[0].balance] else []) + Positive(m[1..])
  }

  lemma {:induction false} PositiveSum(m: Balances)
    requires NonNegative(m)
    ensures Sum(Positive(m)) == SumBalances(m)
  {
    if m != [] {
      PositiveSum(m[1..]);
      if m[0].balance > 0 {
        assert ([m[0].balance] + Positive(m[1..]))[1..] == Positive(m[1..]);
      } else {
        assert [] + Positive(m[1..]) == Positive(m[1..]);
      }
    }
  }

  /** From the loans to the metrics: the exposures are positive and add up to everything outstanding. */
  method ConcentrationOf(loans: seq<OpenLoan>) returns (exposures: seq<int>, r: Concentration.Report)
    ensures exposures == Positive(ByCustomer(loans)) && Concentration.Acc(exposures) == TotalOutstanding(loans)
    ensures r.totalOutstanding == TotalOutstanding(loans) && r.exposureCount == |exposures|
    ensures exposures == [] <==> TotalOutstanding(loans) == 0
    ensures exposures != [] ==>
              && Concentration.Exposures(exposures) && Concentration.Acc(exposures) > 0
              && r.hhi == Concentration.SixPlaces(Concentration.Hhi(exposures))
              && r.gini == Concentration.SixPlaces(Concentration.Gini(exposures))
              && |r.ratios| == |Concentration.TOP_N|
              && forall i :: 0 <= i < |r.ratios| ==>
                   r.ratios[i] == Concentration.TwoPlaces(Concentration.RatioAt(exposures, Concentration.TOP_N[i]))
  {
    var byCustomer: Balances := [];
    for i := 0 to |loans|
      invariant byCustomer == ByCustomer(loans[..i])
    {
      var l := loans[i];
      assert loans[..i + 1][..i] == loans[..i];
      byCustomer := Put(byCustomer, l.customer, Get(byCustomer, l.customer) + Outstanding(l));
    }
    assert loans[..|loans|] == loans;
    exposures := Positive(byCustomer);
    hide Positive, Concentration.Hhi, Concentration.Gini, Concentration.RatioAt, Concentration.SixPlaces,
         Concentration.TwoPlaces, ByCustomer;
    ByCustomerMeans(loans, 0);
    ByCustomerNonNegative(loans);
    PositiveSum(byCustomer);
    Concentration.AccIsSum(exposures);
    r := Concentration.ComputeConcentration(exposures);
  }
}
