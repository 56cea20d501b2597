/** The indirect cash flow statement, and when it agrees with the change in cash. */
module CashFlowStatement {
  import opened Money
  import opened Calendar
  import opened GeneralLedger
  import opened LedgerReports

  datatype Activity = OPERATING | INVESTING | FINANCING | UNTAGGED

  datatype Movement = Movement(
    account: nat, category: Category, activity: Activity, isLiquidAsset: bool, openingBalance: int, closingBalance: int)

  datatype Statement = Statement(
    operating: int, investing: int, financing: int, netChange: int, cashOpening: int, cashClosing: int,
    reconciles: bool)

  function CashEffect(c: Category, change: int): int {
    if DebitNormal(c) then -change else change
  }

  function Change(m: Movement): int { m.closingBalance - m.openingBalance }

  /** Sum of the cash effects of the non-cash accounts. */
  function NonCashEffects(movements: seq<Movement>): int {
    if movements == [] then 0
    else
      var m := movements[|movements| - 1];
      NonCashEffects(movements[..|movements| - 1]) + if m.isLiquidAsset then 0 else CashEffect(m.category, Change(m))
  }

  /** The share of one activity; what is not tagged counts as operating. */
  function ActivityEffects(movements: seq<Movement>, activity: Activity): int {
    if movements == [] then 0
    else
      var m := movements[|movements| - 1];
      var section := if m.activity == UNTAGGED then OPERATING else m.activity;
      ActivityEffects(movements[..|movements| - 1], activity)
      + if !m.isLiquidAsset && section == activity then CashEffect(m.category, Change(m)) else 0
  }

  function CashOpening(movements: seq<Movement>): int {
    if movements == [] then 0
    else
      var m := movements[|movements| - 1];
      CashOpening(movements[..|movements| - 1]) + if m.isLiquidAsset then m.openingBalance else 0
  }

  function CashClosing(movements: seq<Movement>): int {
    if movements == [] then 0
    else
      var m := movements[|movements| - 1];
      CashClosing(movements[..|movements| - 1]) + if m.isLiquidAsset then m.closingBalance else 0
  }

  /** The sum of an amount over the movements that are wanted. */
  function SumWhere(movements: seq<Movement>, wanted: Movement -> bool, amount: Movement -> int): int {
    if movements == [] then 0
    else
      var m := movements[|movements| - 1];
      SumWhere(movements[..|movements| - 1], wanted, amount) + if wanted(m) then amount(m) else 0
  }

  /** What a movement brings in: falling debit-normal balances and rising others. */
  function Inflow(): Movement -> int {
    (m: Movement) =>
      if m.category == ASSET || m.category == EXPENSE then m.openingBalance - m.closingBalance
      else m.closingBalance - m.openingBalance
  }

  function NonCash(activities: set<Activity>): Movement -> bool {
    (m: Movement) => !m.isLiquidAsset && m.activity in activities
  }

  function Liquid(): Movement -> bool { (m: Movement) => m.isLiquidAsset }

  function Opening(): Movement -> int { (m: Movement) => m.openingBalance }

  function Closing(): Movement -> int { (m: Movement) => m.closingBalance }

  lemma {:induction false} ActivitiesMean(movements: seq<Movement>)
    ensures ActivityEffects(movements, OPERATING) == SumWhere(movements, NonCash({OPERATING, UNTAGGED}), Inflow())
    ensures ActivityEffects(movements, INVESTING) == SumWhere(movements, NonCash({INVESTING}), Inflow())
    ensures ActivityEffects(movements, FINANCING) == SumWhere(movements, NonCash({FINANCING}), Inflow())
    ensures CashOpening(movements) == SumWhere(movements, Liquid(), Opening())
    ensures CashClosing(movements) == SumWhere(movements, Liquid(), Closing())
  {
    if movements != [] {
      ActivitiesMean(movements[..|movements| - 1]);
    }
  }

  method BuildCashFlowStatement(movements: seq<Movement>) returns (r: Statement)
    ensures r.operating == SumWhere(movements, NonCash({OPERATING, UNTAGGED}), Inflow())
    ensures r.investing == SumWhere(movements, NonCash({INVESTING}), Inflow())
    ensures r.financing == SumWhere(movements, NonCash({FINANCING}), Inflow())
    ensures r.cashOpening == SumWhere(movements, Liquid(), Opening())
    ensures r.cashClosing == SumWhere(movements, Liquid(), Closing())
    ensures r.operating == ActivityEffects(movements, OPERATING)
    ensures r.investing == ActivityEffects(movements, INVESTING)
    ensures r.financing == ActivityEffects(movements, FINANCING)
    ensures r.netChange == r.operating + r.investing + r.financing == NonCashEffects(movements)
    ensures r.cashOpening == CashOpening(movements) && r.cashClosing == CashClosing(movements)
    ensures r.reconciles <==> Abs(r.cashClosing - r.cashOpening - r.netChange) < 2
  {
    var operating, investing, financing := 0, 0, 0;
    for i := 0 to |movements|
      invariant operating == ActivityEffects(movements[..i], OPERATING)
      invariant investing == ActivityEffects(movements[..i], INVESTING)
      invariant financing == ActivityEffects(movements[..i], FINANCING)
      invariant operating + investing + financing == NonCashEffects(movements[..i])
    {
      var m := movements[i];
      assert movements[..i + 1][..i] == movements[..i] && movements[..i + 1][i] == m;
      if !m.isLiquidAsset {
        var change := m.closingBalance - m.openingBalance;
        var effect := CashEffect(m.category, change);
        if m.activity == INVESTING {
          investing := investing + effect;
        } else if m.activity == FINANCING {
          financing := financing + effect;
        } else {
          operating := operating + effect;
        }
      }
    }
    assert movements[..|movements|] == movements;
    ActivitiesMean(movements);
    var cashOpening, cashClosing := CashOpening(movements), CashClosing(movements);
    var netChange := operating + investing + financing;
    r := Statement(operating, investing, financing, netChange, cashOpening, cashClosing,
      Abs(cashClosing - cashOpening - netChange) < 2);
  }

  // ---- from posted history ----------------------------------------------

  /** How an account is tagged for the statement. */
  datatype Tag = Tag(activity: Activity, isLiquidAsset: bool)

  ghost predicate Tagged(chart: Chart, tags: seq<Tag>, ids: seq<nat>) {
    |tags| == |chart| && forall i :: 0 <= i < |ids| ==> ids[i] < |chart|
  }

  function MovementOf(chart: Chart, tags: seq<Tag>, journals: seq<Journal>, from: Time, to: Time, a: nat): Movement
    requires PostedOnChart(chart, journals) && |tags| == |chart| && a < |chart|
  {
    PostedUpToOnChart(chart, journals, from - 1);
    PostedUpToOnChart(chart, journals, to);
    Movement(a, chart[a], tags[a].activity, tags[a].isLiquidAsset,
             Get(Aggregate(chart, PostedUpTo(journals, from - 1)), a),
             Get(Aggregate(chart, PostedUpTo(journals, to)), a))
  }

  /** The movements of the listed accounts over a period. */
  function Movements(chart: Chart, tags: seq<Tag>, journals: seq<Journal>, from: Time, to: Time,
      ids: seq<nat>): (r: seq<Movement>)
    requires PostedOnChart(chart, journals) && Tagged(chart, tags, ids)
    ensures |r| == |ids|
  {
    if ids == [] then []
    else
      Movements(chart, tags, journals, from, to, ids[..|ids| - 1])
        + [MovementOf(chart, tags, journals, from, to, ids[|ids| - 1])]
  }

  /** Debits less credits of the listed accounts. */
  function NetOf(lines: seq<Line>, ids: seq<nat>): int {
    if ids == [] then 0 else NetOf(lines, ids[..|ids| - 1]) + NetDebit(lines, ids[|ids| - 1])
  }

  lemma {:induction false} NetOfSplit(lines: seq<Line>, ids: seq<nat>, more: seq<nat>)
    ensures NetOf(lines, ids + more) == NetOf(lines, ids) + NetOf(lines, more)
  {
    if more == [] {
      assert ids + more == ids;
    } else {
      assert (ids + more)[..|ids + more| - 1] == ids + more[..|more| - 1];
      NetOfSplit(lines, ids, more[..|more| - 1]);
    }
  }

  ghost predicate DistinctIds(ids: seq<nat>) {
    forall i, j :: 0 <= i < j < |ids| ==> ids[i] != ids[j]
  }

  lemma {:induction false} NetOfNothing(ids: seq<nat>)
    ensures NetOf([], ids) == 0
  {
    if ids != [] {
      NetOfNothing(ids[..|ids| - 1]);
    }
  }

  /** One more line changes the net of a duplicate-free list once, if its account is listed. */
  lemma {:induction false} NetOfOneLine(before: seq<Line>, l: Line, ids: seq<nat>)
    requires DistinctIds(ids)
    ensures NetOf(before + [l], ids) == NetOf(before, ids) + if l.account in ids then l.debit - l.credit else 0
  {
    if ids != [] {
      var some, a := ids[..|ids| - 1], ids[|ids| - 1];
      NetOfOneLine(before, l, some);
      TotalSnoc(NetOn(a), before, l);
      assert ids == some + [a];
      if l.account in some {
        assert l.account != a;
      }
    }
  }

  /** Over accounts that cover all lines, debits less credits are those of the lines. */
  lemma {:induction false} NetOfAll(lines: seq<Line>, ids: seq<nat>)
    requires DistinctIds(ids) && forall i :: 0 <= i < |lines| ==> lines[i].account in ids
    ensures NetOf(lines, ids) == SumDebit(lines) - SumCredit(lines)
  {
    if lines == [] {
      NetOfNothing(ids);
    } else {
      var before, l := lines[..|lines| - 1], lines[|lines| - 1];
      assert lines == before + [l];
      NetOfAll(before, ids);
      NetOfOneLine(before, l, ids);
    }
  }

  /** A movement's change is its period's debits less credits, seen from its category. */
  lemma MovementChange(chart: Chart, tags: seq<Tag>, journals: seq<Journal>, from: Time, to: Time, a: nat)
    requires PostedOnChart(chart, journals) && |tags| == |chart| && a < |chart| && from <= to + 1
    ensures Change(MovementOf(chart, tags, journals, from, to, a))
            == Signed(chart[a], NetDebit(PostedBetween(journals, from, to), a))
  {
    hide Aggregate, Get, NetDebit;
    PostedUpToOnChart(chart, journals, from - 1);
    PostedUpToOnChart(chart, journals, to);
    AggregateIsAccountSum(chart, PostedUpTo(journals, from - 1), a);
    AggregateIsAccountSum(chart, PostedUpTo(journals, to), a);
    PeriodTelescopes(EffectOn(chart, a), journals, from, to);
    AccountSumIsNetDebit(chart, PostedBetween(journals, from, to), a);
  }

  /** Twice the change of the listed liquid accounts that are not debit-normal: zero when liquid accounts are assets. */
  function CreditNormalCash(movements: seq<Movement>): int {
    if movements == [] then 0
    else
      var m := movements[|movements| - 1];
      CreditNormalCash(movements[..|movements| - 1])
      + if m.isLiquidAsset && !DebitNormal(m.category) then 2 * Change(m) else 0
  }

  /** Change in cash, effects of the other accounts and net of the lines, for any list of accounts. */
  lemma {:induction false} CashEquation(chart: Chart, tags: seq<Tag>, journals: seq<Journal>, from: Time, to: Time,
      ids: seq<nat>)
    requires PostedOnChart(chart, journals) && Tagged(chart, tags, ids) && from <= to + 1
    ensures var ms := Movements(chart, tags, journals, from, to, ids);
            CashClosing(ms) - CashOpening(ms) - NonCashEffects(ms) - CreditNormalCash(ms)
              == NetOf(PostedBetween(journals, from, to), ids)
  {
    hide MovementOf, NetDebit;
    if ids != [] {
      var some, a := ids[..|ids| - 1], ids[|ids| - 1];
      CashEquation(chart, tags, journals, from, to, some);
      MovementChange(chart, tags, journals, from, to, a);
      MovementFields(chart, tags, journals, from, to, a);
      var ms := Movements(chart, tags, journals, from, to, ids);
      assert ms[..|ms| - 1] == Movements(chart, tags, journals, from, to, some);
    }
  }

  lemma MovementFields(chart: Chart, tags: seq<Tag>, journals: seq<Journal>, from: Time, to: Time, a: nat)
    requires PostedOnChart(chart, journals) && |tags| == |chart| && a < |chart|
    ensures var m := MovementOf(chart, tags, journals, from, to, a);
            m.category == chart[a] && m.isLiquidAsset == tags[a].isLiquidAsset
  {
  }

  /** The accounts of the list that are liquid are assets. */
  ghost predicate CashIsAsset(chart: Chart, tags: seq<Tag>, ids: seq<nat>)
    requires Tagged(chart, tags, ids)
  {
    forall i :: 0 <= i < |ids| && tags[ids[i]].isLiquidAsset ==> chart[ids[i]] == ASSET
  }

  lemma {:induction false} NoCreditNormalCash(chart: Chart, tags: seq<Tag>, journals: seq<Journal>, from: Time,
      to: Time, ids: seq<nat>)
    requires PostedOnChart(chart, journals) && Tagged(chart, tags, ids) && CashIsAsset(chart, tags, ids)
    ensures CreditNormalCash(Movements(chart, tags, journals, from, to, ids)) == 0
  {
    if ids != [] {
      hide MovementOf;
      var some := ids[..|ids| - 1];
      NoCreditNormalCash(chart, tags, journals, from, to, some);
      MovementFields(chart, tags, journals, from, to, ids[|ids| - 1]);
      var ms := Movements(chart, tags, journals, from, to, ids);
      assert ms[..|ms| - 1] == Movements(chart, tags, journals, from, to, some);
    }
  }

  /** Cash effect of accounts whether liquid or not. */
  function AllEffects(movements: seq<Movement>): int {
    if movements == [] then 0
    else
      var m := movements[|movements| - 1];
      AllEffects(movements[..|movements| - 1]) + CashEffect(m.category, Change(m))
  }

  lemma {:induction false} EffectsAreNet(chart: Chart, tags: seq<Tag>, journals: seq<Journal>, from: Time, to: Time,
      ids: seq<nat>)
    requires PostedOnChart(chart, journals) && Tagged(chart, tags, ids) && from <= to + 1
    ensures AllEffects(Movements(chart, tags, journals, from, to, ids))
            == -NetOf(PostedBetween(journals, from, to), ids)
  {
    if ids != [] {
      hide MovementOf, NetDebit;
      var some, a := ids[..|ids| - 1], ids[|ids| - 1];
      EffectsAreNet(chart, tags, journals, from, to, some);
      MovementChange(chart, tags, journals, from, to, a);
      MovementFields(chart, tags, journals, from, to, a);
      var ms := Movements(chart, tags, journals, from, to, ids);
      assert ms[..|ms| - 1] == Movements(chart, tags, journals, from, to, some);
    }
  }

  lemma {:induction false} PostedBetweenBalanced(journals: seq<Journal>, from: Time, to: Time)
    requires PostedBalanced(journals)
    ensures SumDebit(PostedBetween(journals, from, to)) == SumCredit(PostedBetween(journals, from, to))
  {
    if journals != [] {
      var before, j := journals[..|journals| - 1], journals[|journals| - 1];
      PostedBetweenBalanced(before, from, to);
      TotalConcat(DebitOf(), PostedBetween(before, from, to), LinesWithin(j, from, to));
      TotalConcat(CreditOf(), PostedBetween(before, from, to), LinesWithin(j, from, to));
    }
  }

  /** Every account with a line in the period is either listed or left out, and none twice. */
  ghost predicate Covers(lines: seq<Line>, listed: seq<nat>, omitted: seq<nat>) {
    DistinctIds(listed + omitted) && forall i :: 0 <= i < |lines| ==> lines[i].account in listed + omitted
  }

  /**
    The reconciliation, for any balanced history and any tagging: net change
    misses the change in cash by exactly the cash effect of the accounts left
    out of the list, provided liquid accounts are assets. With nothing left
    out the statement is exact.
   */
  lemma CashFlowReconciles(chart: Chart, tags: seq<Tag>, journals: seq<Journal>, from: Time, to: Time, listed: seq<nat>,
      omitted: seq<nat>)
    requires PostedOnChart(chart, journals) && PostedBalanced(journals) && from <= to + 1
    requires Tagged(chart, tags, listed) && Tagged(chart, tags, omitted) && CashIsAsset(chart, tags, listed)
    requires Covers(PostedBetween(journals, from, to), listed, omitted)
    ensures var ms := Movements(chart, tags, journals, from, to, listed);
            var left := Movements(chart, tags, journals, from, to, omitted);
            && NonCashEffects(ms) + AllEffects(left) == CashClosing(ms) - CashOpening(ms)
            && (omitted == [] ==> NonCashEffects(ms) == CashClosing(ms) - CashOpening(ms))
  {
    hide Movements, NetOf, PostedBetween;
    var lines := PostedBetween(journals, from, to);
    CashEquation(chart, tags, journals, from, to, listed);
    NoCreditNormalCash(chart, tags, journals, from, to, listed);
    EffectsAreNet(chart, tags, journals, from, to, omitted);
    NetOfAll(lines, listed + omitted);
    NetOfSplit(lines, listed, omitted);
    PostedBetweenBalanced(journals, from, to);
    NoMovements(Movements(chart, tags, journals, from, to, omitted));
  }

  lemma NoMovements(movements: seq<Movement>)
    ensures movements == [] ==> AllEffects(movements) == 0
  {
  }

  /** Without the assumption on liquid accounts: each credit-normal one is off by twice its change. */
  lemma CashFlowGap(chart: Chart, tags: seq<Tag>, journals: seq<Journal>, from: Time, to: Time, listed: seq<nat>,
      omitted: seq<nat>)
    requires PostedOnChart(chart, journals) && PostedBalanced(journals) && from <= to + 1
    requires Tagged(chart, tags, listed) && Tagged(chart, tags, omitted)
    requires Covers(PostedBetween(journals, from, to), listed, omitted)
    ensures var ms := Movements(chart, tags, journals, from, to, listed);
            var left := Movements(chart, tags, journals, from, to, omitted);
            CashClosing(ms) - CashOpening(ms) - NonCashEffects(ms) == AllEffects(left) + CreditNormalCash(ms)
  {
    hide Movements, NetOf, PostedBetween;
    var lines := PostedBetween(journals, from, to);
    CashEquation(chart, tags, journals, from, to, listed);
    EffectsAreNet(chart, tags, journals, from, to, omitted);
    NetOfAll(lines, listed + omitted);
    NetOfSplit(lines, listed, omitted);
    PostedBetweenBalanced(journals, from, to);
  }
}
